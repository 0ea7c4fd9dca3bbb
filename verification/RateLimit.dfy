// The send budget of a2a-channel.ts: a token bucket for the whole channel and one per recipient.
// Instants are in milliseconds; arithmetic is exact.
module RateLimit {
  import opened Wrappers

  datatype Bucket = Bucket(capacity: real, perMin: real, tokens: real, last: real)

  function Min(a: real, b: real): real { if a < b then a else b }

  function NewBucket(capacity: real, perMin: real, now: real): Bucket { Bucket(capacity, perMin, capacity, now) }

  // What flows in over a span of time.
  function Gained(perMin: real, span: real): real { span * (perMin / 60000.0) }

  // The tokens there are at an instant.
  function Level(b: Bucket, t: real): real { Min(b.capacity, b.tokens + Gained(b.perMin, t - b.last)) }

  function Refilled(b: Bucket, t: real): Bucket { b.(tokens := Level(b, t), last := t) }

  function Taken(b: Bucket, t: real): Bucket {
    var r := Refilled(b, t);
    if r.tokens < 1.0 then r else r.(tokens := r.tokens - 1.0)
  }

  const MAX_TRACKED_KEYS := 4096

  // peers is a Map in insertion order.
  datatype Limiter = Limiter(
    ratePerMin: real, ratePerPeerPerMin: real, total: Option<Bucket>, peers: seq<(string, Bucket)>)

  function Find(peers: seq<(string, Bucket)>, key: string): (r: Option<nat>)
    ensures r.Some? ==> r.value < |peers| && peers[r.value].0 == key
    ensures r.None? ==> forall i | 0 <= i < |peers| :: peers[i].0 != key
  {
    if peers == [] then None
    else if peers[0].0 == key then Some(0)
    else match Find(peers[1..], key) case None => None case Some(i) => Some(i + 1)
  }

  function EvictOldest(peers: seq<(string, Bucket)>): seq<(string, Bucket)> {
    if |peers| >= MAX_TRACKED_KEYS then peers[1..] else peers
  }

  // The readings of the clock in the order rateOk takes them: the two constructors, the two peeks,
  // the two takes. A step that is not reached leaves its reading unused.
  datatype Readings = Readings(newTotal: real, newPeer: real, peekTotal: real, peekPeer: real, takeTotal: real, takePeer: real)

  predicate InOrder(r: Readings, from: real) {
    from <= r.newTotal <= r.newPeer <= r.peekTotal <= r.peekPeer <= r.takeTotal <= r.takePeer
  }

  function TotalOf(s: Limiter, r: Readings): Bucket {
    if s.total.Some? then s.total.value else NewBucket(s.ratePerMin, s.ratePerMin, r.newTotal)
  }

  function PeersWith(s: Limiter, key: string, r: Readings): seq<(string, Bucket)> {
    if Find(s.peers, key).Some? then s.peers
    else EvictOldest(s.peers) + [(key, NewBucket(s.ratePerPeerPerMin, s.ratePerPeerPerMin, r.newPeer))]
  }

  lemma PeersWithHas(s: Limiter, key: string, r: Readings)
    ensures Find(PeersWith(s, key, r), key).Some?
  {
    var peers := PeersWith(s, key, r);
    if Find(s.peers, key).None? { assert peers[|peers| - 1].0 == key; }
  }

  function Rated(s: Limiter, key: string, r: Readings): (Limiter, bool) {
    PeersWithHas(s, key, r);
    var peers := PeersWith(s, key, r);
    var i := Find(peers, key).value;
    var total := Refilled(TotalOf(s, r), r.peekTotal);
    if total.tokens < 1.0 then (s.(total := Some(total), peers := peers), false)
    else
      var peer := Refilled(peers[i].1, r.peekPeer);
      if peer.tokens < 1.0 then (s.(total := Some(total), peers := peers[i := (key, peer)]), false)
      else (s.(total := Some(Taken(total, r.takeTotal)), peers := peers[i := (key, Taken(peer, r.takePeer))]), true)
  }

  // ---- One bucket ----

  ghost predicate BucketValid(b: Bucket) {
    1.0 <= b.perMin && 1.0 <= b.capacity && 0.0 <= b.tokens <= b.capacity
  }

  lemma GainIsPositive(perMin: real, span: real)
    requires 0.0 <= perMin && 0.0 <= span
    ensures 0.0 <= Gained(perMin, span)
  {
  }

  lemma GainIs(perMin: real, span: real)
    ensures Gained(perMin, span) == span * perMin / 60000.0
  {
  }

  lemma GainAdds(perMin: real, a: real, b: real)
    ensures Gained(perMin, a + b) == Gained(perMin, a) + Gained(perMin, b)
  {
  }

  lemma RefillKeeps(b: Bucket, t: real)
    requires BucketValid(b) && b.last <= t
    ensures BucketValid(Refilled(b, t))
    ensures b.tokens <= Level(b, t) <= b.tokens + Gained(b.perMin, t - b.last)
  {
    GainIsPositive(b.perMin, t - b.last);
    hide Gained;
  }

  // Refilling at an earlier instant does not change what there is at a later one.
  lemma RefillIsInvisible(b: Bucket, t: real, later: real)
    requires BucketValid(b) && b.last <= t <= later
    ensures Level(Refilled(b, t), later) == Level(b, later)
  {
    GainIsPositive(b.perMin, t - b.last);
    GainIsPositive(b.perMin, later - t);
    GainAdds(b.perMin, t - b.last, later - t);
    hide Gained;
  }

  // After a peek that found a token, a take at any later instant takes exactly one.
  lemma TakeAfterPeek(b: Bucket, peek: real, take: real)
    requires BucketValid(b) && b.last <= peek <= take && Level(b, peek) >= 1.0
    ensures var after := Taken(Refilled(b, peek), take);
            && BucketValid(after) && after.last == take
            && after.tokens == Level(b, take) - 1.0
  {
    RefillKeeps(b, peek);
    RefillKeeps(Refilled(b, peek), take);
    RefillIsInvisible(b, peek, take);
    hide Gained;
  }

  // A bucket that is full or in use at an instant inside a window, and the grants taken from it since:
  // what is left and what was granted never exceed a full bucket and the inflow since the window began.
  ghost predicate Within(b: Bucket, from: real, granted: nat) {
    b.last >= from && b.tokens + granted as real <= b.capacity + Gained(b.perMin, b.last - from)
  }

  lemma RefillStaysWithin(b: Bucket, from: real, granted: nat, t: real)
    requires BucketValid(b) && b.last <= t && from <= t && (Within(b, from, granted) || granted == 0)
    ensures Within(Refilled(b, t), from, granted)
  {
    RefillKeeps(b, t);
    GainIsPositive(b.perMin, t - from);
    if Within(b, from, granted) { GainAdds(b.perMin, b.last - from, t - b.last); }
    hide Gained;
  }

  lemma TakeStaysWithin(b: Bucket, from: real, granted: nat, peek: real, take: real)
    requires BucketValid(b) && b.last <= peek <= take && Level(b, peek) >= 1.0
    requires from <= peek && (Within(b, from, granted) || granted == 0)
    ensures Within(Taken(Refilled(b, peek), take), from, granted + 1)
  {
    RefillKeeps(b, peek);
    RefillKeeps(Refilled(b, peek), take);
    RefillStaysWithin(b, from, granted, peek);
    RefillStaysWithin(Refilled(b, peek), from, granted, take);
  }

  // ---- The recipients' buckets ----

  function BucketOf(peers: seq<(string, Bucket)>, key: string): Option<Bucket> {
    var i := Find(peers, key);
    if i.Some? then Some(peers[i.value].1) else None
  }

  lemma {:induction false} UpdateOne(peers: seq<(string, Bucket)>, key: string, b: Bucket, k: string)
    requires Find(peers, key).Some?
    ensures BucketOf(peers[Find(peers, key).value := (key, b)], k) == if k == key then Some(b) else BucketOf(peers, k)
    ensures Find(peers[Find(peers, key).value := (key, b)], k) == Find(peers, k)
  {
    var i := Find(peers, key).value;
    if i > 0 {
      assert peers[i := (key, b)][1..] == peers[1..][i - 1 := (key, b)];
      UpdateOne(peers[1..], key, b, k);
    } else {
      assert peers[0 := (key, b)][1..] == peers[1..];
    }
  }

  lemma {:induction false} AppendOne(peers: seq<(string, Bucket)>, key: string, b: Bucket, k: string)
    requires Find(peers, key).None?
    ensures BucketOf(peers + [(key, b)], k) == if k == key then Some(b) else BucketOf(peers, k)
  {
    if peers != [] {
      assert (peers + [(key, b)])[1..] == peers[1..] + [(key, b)];
      AppendOne(peers[1..], key, b, k);
    }
  }

  ghost predicate Valid(s: Limiter, clock: real) {
    && 1.0 <= s.ratePerMin && 1.0 <= s.ratePerPeerPerMin
    && (s.total.Some? ==> OfRate(s.total.value, s.ratePerMin, clock))
    && (forall p | p in s.peers :: OfRate(p.1, s.ratePerPeerPerMin, clock))
    && (forall i, j | 0 <= i < j < |s.peers| :: s.peers[i].0 != s.peers[j].0)
    && |s.peers| <= MAX_TRACKED_KEYS
  }

  ghost predicate OfRate(b: Bucket, rate: real, clock: real) {
    BucketValid(b) && b.perMin == rate && b.capacity == rate && b.last <= clock
  }

  lemma EvictForgetsTheOldest(peers: seq<(string, Bucket)>, k: string)
    requires forall i, j | 0 <= i < j < |peers| :: peers[i].0 != peers[j].0
    ensures BucketOf(EvictOldest(peers), k) ==
            if |peers| >= MAX_TRACKED_KEYS && peers[0].0 == k then None else BucketOf(peers, k)
  {
    if |peers| >= MAX_TRACKED_KEYS && peers[0].0 == k {
      forall i | 0 <= i < |peers| - 1 ensures peers[1..][i].0 != k { assert peers[1..][i] == peers[i + 1]; }
      assert Find(peers[1..], k).None?;
    }
  }

  // The bucket a send draws on: the recipient's own, or a new one.
  function PeerOf(s: Limiter, key: string, r: Readings): Bucket {
    var b := BucketOf(s.peers, key);
    if b.Some? then b.value else NewBucket(s.ratePerPeerPerMin, s.ratePerPeerPerMin, r.newPeer)
  }

  predicate Evicts(s: Limiter, key: string, k: string) {
    BucketOf(s.peers, key).None? && |s.peers| >= MAX_TRACKED_KEYS && s.peers[0].0 == k
  }

  lemma PeersWithMeans(s: Limiter, key: string, r: Readings, k: string)
    requires Valid(s, r.newTotal)
    ensures BucketOf(PeersWith(s, key, r), k) ==
            if k == key then Some(PeerOf(s, key, r)) else if Evicts(s, key, k) then None else BucketOf(s.peers, k)
  {
    if Find(s.peers, key).None? {
      EvictForgetsTheOldest(s.peers, k);
      EvictForgetsTheOldest(s.peers, key);
      AppendOne(EvictOldest(s.peers), key, NewBucket(s.ratePerPeerPerMin, s.ratePerPeerPerMin, r.newPeer), k);
    }
  }

  lemma {:induction false} FirstIs(peers: seq<(string, Bucket)>, key: string, i: nat)
    requires i < |peers| && peers[i].0 == key && forall j | 0 <= j < i :: peers[j].0 != key
    ensures Find(peers, key) == Some(i)
  {
    if i > 0 { FirstIs(peers[1..], key, i - 1); }
  }

  lemma NewIsLast(s: Limiter, key: string, r: Readings)
    requires Find(s.peers, key).None?
    ensures Find(PeersWith(s, key, r), key) == Some(|PeersWith(s, key, r)| - 1)
  {
    var peers := PeersWith(s, key, r);
    assert forall j | 0 <= j < |peers| - 1 :: peers[j] in s.peers;
    FirstIs(peers, key, |peers| - 1);
  }

  // ---- One send ----

  // The two buckets after a send: refilled where peeked, taken from where granted.
  function TotalAfter(s: Limiter, key: string, r: Readings): Bucket {
    var total := Refilled(TotalOf(s, r), r.peekTotal);
    if Rated(s, key, r).1 then Taken(total, r.takeTotal) else total
  }

  function PeerAfter(s: Limiter, key: string, r: Readings): Bucket {
    var peer := PeerOf(s, key, r);
    if Rated(s, key, r).1 then Taken(Refilled(peer, r.peekPeer), r.takePeer)
    else if Level(TotalOf(s, r), r.peekTotal) < 1.0 then peer
    else Refilled(peer, r.peekPeer)
  }

  lemma SendChanges(s: Limiter, key: string, r: Readings, k: string)
    requires Valid(s, r.newTotal)
    ensures var (t, ok) := Rated(s, key, r);
            && ok == (Level(TotalOf(s, r), r.peekTotal) >= 1.0 && Level(PeerOf(s, key, r), r.peekPeer) >= 1.0)
            && t == s.(total := Some(TotalAfter(s, key, r)), peers := t.peers)
            && BucketOf(t.peers, k) ==
               if k == key then Some(PeerAfter(s, key, r)) else if Evicts(s, key, k) then None else BucketOf(s.peers, k)
  {
    hide Level, Taken, Find, Evicts, PeersWith;
    PeersWithHas(s, key, r);
    PeersWithMeans(s, key, r, key);
    PeersWithMeans(s, key, r, k);
    var peers := PeersWith(s, key, r);
    UpdateOne(peers, key, Refilled(PeerOf(s, key, r), r.peekPeer), k);
    UpdateOne(peers, key, Taken(Refilled(PeerOf(s, key, r), r.peekPeer), r.takePeer), k);
  }

  // A refusal takes from neither bucket; a grant takes exactly one token from both.
  lemma RefusalIsFreeGrantCostsOne(s: Limiter, key: string, r: Readings, t: real)
    requires Valid(s, r.newTotal) && InOrder(r, r.newTotal) && r.takePeer <= t
    ensures var ok := Rated(s, key, r).1;
            && (!ok ==> Level(TotalAfter(s, key, r), t) == Level(TotalOf(s, r), t))
            && (!ok ==> Level(PeerAfter(s, key, r), t) == Level(PeerOf(s, key, r), t))
            && (ok ==> TotalAfter(s, key, r).tokens == Level(TotalOf(s, r), r.takeTotal) - 1.0)
            && (ok ==> PeerAfter(s, key, r).tokens == Level(PeerOf(s, key, r), r.takePeer) - 1.0)
  {
    SendChanges(s, key, r, key);
    BucketsOfRate(s, key, r);
    var total, peer := TotalOf(s, r), PeerOf(s, key, r);
    hide Level, Rated, Valid, PeerOf, TotalOf, Taken;
    RefillIsInvisible(total, r.peekTotal, t);
    RefillIsInvisible(peer, r.peekPeer, t);
    if Rated(s, key, r).1 {
      TakeAfterPeek(total, r.peekTotal, r.takeTotal);
      TakeAfterPeek(peer, r.peekPeer, r.takePeer);
    }
  }

  lemma BucketsOfRate(s: Limiter, key: string, r: Readings)
    requires Valid(s, r.newTotal) && r.newTotal <= r.newPeer
    ensures OfRate(TotalOf(s, r), s.ratePerMin, r.newTotal) && OfRate(PeerOf(s, key, r), s.ratePerPeerPerMin, r.newPeer)
  {
    var i := Find(s.peers, key);
    if i.Some? { assert s.peers[i.value] in s.peers; }
  }

  lemma SendKeepsValid(s: Limiter, key: string, r: Readings, clock: real)
    requires Valid(s, clock) && InOrder(r, clock)
    ensures Valid(Rated(s, key, r).0, r.takePeer)
  {
    BucketsOfRate(s, key, r);
    PeersWithHas(s, key, r);
    PeersWithMeans(s, key, r, key);
    PeersWithValid(s, key, r, clock);
    var total, peer := TotalOf(s, r), PeerOf(s, key, r);
    var peers := PeersWith(s, key, r);
    var i := Find(peers, key).value;
    assert peers[i].1 == peer;
    hide Valid, Level, PeersWith, Find, Taken, TotalOf, PeerOf, BucketValid;
    RefillKeeps(total, r.peekTotal);
    RefillKeeps(peer, r.peekPeer);
    if Level(total, r.peekTotal) >= 1.0 { TakeAfterPeek(total, r.peekTotal, r.takeTotal); }
    if Level(peer, r.peekPeer) >= 1.0 { TakeAfterPeek(peer, r.peekPeer, r.takePeer); }
    TakenRate(total, r.peekTotal, r.takeTotal);
    TakenRate(peer, r.peekPeer, r.takePeer);
    SentValid(s, peers, i, key, r, Refilled(total, r.peekTotal), peers[i].1);
    SentValid(s, peers, i, key, r, Refilled(total, r.peekTotal), Refilled(peer, r.peekPeer));
    if Level(total, r.peekTotal) >= 1.0 && Level(peer, r.peekPeer) >= 1.0 {
      SentValid(s, peers, i, key, r, Taken(Refilled(total, r.peekTotal), r.takeTotal),
                Taken(Refilled(peer, r.peekPeer), r.takePeer));
    }
    assert peers[i := (key, peers[i].1)] == peers;
  }

  lemma TakenRate(b: Bucket, peek: real, take: real)
    ensures var t := Taken(Refilled(b, peek), take); t.perMin == b.perMin && t.capacity == b.capacity
  {
  }

  lemma PeersWithValid(s: Limiter, key: string, r: Readings, clock: real)
    requires Valid(s, clock) && InOrder(r, clock)
    ensures var t := s.(peers := PeersWith(s, key, r), total := None);
            Valid(t, r.newPeer)
  {
    var peers := PeersWith(s, key, r);
    forall p | p in peers ensures OfRate(p.1, s.ratePerPeerPerMin, r.newPeer) {
      if p in s.peers { assert OfRate(p.1, s.ratePerPeerPerMin, clock); }
    }
    if Find(s.peers, key).None? {
      var rest := EvictOldest(s.peers);
      assert forall i | 0 <= i < |rest| :: rest[i] in s.peers;
    }
  }

  lemma SentValid(s: Limiter, peers: seq<(string, Bucket)>, i: nat, key: string, r: Readings, total: Bucket, peer: Bucket)
    requires Valid(s.(peers := peers, total := None), r.newPeer) && i < |peers| && peers[i].0 == key
    requires r.newPeer <= r.takePeer
    requires OfRate(total, s.ratePerMin, r.takePeer) && OfRate(peer, s.ratePerPeerPerMin, r.takePeer)
    ensures Valid(s.(peers := peers[i := (key, peer)], total := Some(total)), r.takePeer)
  {
    var after := peers[i := (key, peer)];
    forall p | p in after ensures OfRate(p.1, s.ratePerPeerPerMin, r.takePeer) {
      if p != (key, peer) { assert p in peers; }
    }
    assert forall j | 0 <= j < |peers| :: after[j].0 == peers[j].0;
  }

  // ---- Whole runs ----

  datatype Send = Send(key: string, r: Readings)
  datatype State = State(limiter: Limiter, clock: real)

  function Begin(ratePerMin: real, ratePerPeerPerMin: real, now: real): State {
    State(Limiter(ratePerMin, ratePerPeerPerMin, None, []), now)
  }

  // The clock does not go back: a send whose readings do is no step of a run.
  predicate Timely(s: State, e: Send) { InOrder(e.r, s.clock) }

  predicate Grants(s: State, e: Send) { Timely(s, e) && Rated(s.limiter, e.key, e.r).1 }

  function Next(s: State, e: Send): State {
    if Timely(s, e) then State(Rated(s.limiter, e.key, e.r).0, e.r.takePeer) else s
  }

  function After(s: State, es: seq<Send>): State {
    if es == [] then s else Next(After(s, es[..|es| - 1]), es[|es| - 1])
  }

  // How many of the sends were granted, all told and to one recipient.
  function Granted(s: State, es: seq<Send>): nat {
    if es == [] then 0
    else Granted(s, es[..|es| - 1]) + if Grants(After(s, es[..|es| - 1]), es[|es| - 1]) then 1 else 0
  }

  function GrantedTo(s: State, es: seq<Send>, key: string): nat {
    if es == [] then 0
    else
      GrantedTo(s, es[..|es| - 1], key)
      + if es[|es| - 1].key == key && Grants(After(s, es[..|es| - 1]), es[|es| - 1]) then 1 else 0
  }

  // No send of the run pushes the recipient's bucket out of the map.
  predicate NeverEvicted(s: State, es: seq<Send>, key: string) {
    es == [] ||
    (NeverEvicted(s, es[..|es| - 1], key) && !Evicts(After(s, es[..|es| - 1]).limiter, es[|es| - 1].key, key))
  }

  predicate InWindow(es: seq<Send>, from: real, to: real) {
    forall i | 0 <= i < |es| :: from <= es[i].r.newTotal && es[i].r.takePeer <= to
  }

  ghost predicate StateValid(s: State) { Valid(s.limiter, s.clock) }

  lemma NextKeepsValid(s: State, e: Send)
    requires StateValid(s)
    ensures StateValid(Next(s, e))
    ensures Next(s, e).limiter.ratePerMin == s.limiter.ratePerMin
    ensures Next(s, e).limiter.ratePerPeerPerMin == s.limiter.ratePerPeerPerMin
  {
    if Timely(s, e) { SendKeepsValid(s.limiter, e.key, e.r, s.clock); }
  }

  lemma {:induction false} AfterIsValid(s: State, es: seq<Send>)
    requires StateValid(s)
    ensures StateValid(After(s, es))
    ensures After(s, es).limiter.ratePerMin == s.limiter.ratePerMin
    ensures After(s, es).limiter.ratePerPeerPerMin == s.limiter.ratePerPeerPerMin
  {
    if es != [] {
      AfterIsValid(s, es[..|es| - 1]);
      NextKeepsValid(After(s, es[..|es| - 1]), es[|es| - 1]);
    }
  }

  lemma TotalStaysWithin(s: State, e: Send, from: real, granted: nat)
    requires StateValid(s) && Timely(s, e) && from <= e.r.newTotal
    requires granted == 0 || (s.limiter.total.Some? && Within(s.limiter.total.value, from, granted))
    ensures Within(TotalAfter(s.limiter, e.key, e.r), from, granted + if Grants(s, e) then 1 else 0)
  {
    SendChanges(s.limiter, e.key, e.r, e.key);
    BucketsOfRate(s.limiter, e.key, e.r);
    var b := TotalOf(s.limiter, e.r);
    hide Rated, Level, Taken, Valid, BucketValid, Within;
    if Grants(s, e) {
      TakeStaysWithin(b, from, granted, e.r.peekTotal, e.r.takeTotal);
    } else {
      RefillStaysWithin(b, from, granted, e.r.peekTotal);
    }
  }

  lemma PeerStaysWithin(s: State, e: Send, from: real, granted: nat)
    requires StateValid(s) && Timely(s, e) && from <= e.r.newTotal
    requires var b := BucketOf(s.limiter.peers, e.key);
             granted == 0 || (b.Some? && Within(b.value, from, granted))
    ensures var after := granted + if Grants(s, e) then 1 else 0;
            after == 0 || Within(PeerAfter(s.limiter, e.key, e.r), from, after)
  {
    SendChanges(s.limiter, e.key, e.r, e.key);
    BucketsOfRate(s.limiter, e.key, e.r);
    var b := PeerOf(s.limiter, e.key, e.r);
    hide Rated, Level, Taken, Valid, BucketValid, PeerOf, Within;
    if Grants(s, e) {
      TakeStaysWithin(b, from, granted, e.r.peekPeer, e.r.takePeer);
    } else {
      RefillStaysWithin(b, from, granted, e.r.peekPeer);
    }
  }

  lemma NextTotal(s: State, e: Send)
    requires StateValid(s) && Timely(s, e)
    ensures Next(s, e).clock == e.r.takePeer
    ensures Next(s, e).limiter.total == Some(TotalAfter(s.limiter, e.key, e.r))
  {
    SendChanges(s.limiter, e.key, e.r, e.key);
  }

  ghost predicate TotalWithin(s: State, n: nat, from: real, to: real) {
    n == 0 || (s.clock <= to && s.limiter.total.Some? && Within(s.limiter.total.value, from, n))
  }

  ghost predicate PeerWithin(s: State, key: string, n: nat, from: real, to: real) {
    var b := BucketOf(s.limiter.peers, key);
    n == 0 || (s.clock <= to && b.Some? && Within(b.value, from, n))
  }

  lemma SendStaysWithin(s: State, e: Send, n: nat, from: real, to: real)
    requires StateValid(s) && InWindow([e], from, to) && TotalWithin(s, n, from, to)
    ensures TotalWithin(Next(s, e), n + if Grants(s, e) then 1 else 0, from, to)
  {
    assert from <= [e][0].r.newTotal && [e][0].r.takePeer <= to;
    hide Rated, Within, TotalAfter, StateValid, InOrder;
    if Timely(s, e) {
      TotalStaysWithin(s, e, from, n);
      NextTotal(s, e);
    }
  }

  lemma NextPeers(s: State, e: Send, key: string)
    requires StateValid(s) && Timely(s, e)
    ensures Next(s, e).clock == e.r.takePeer
    ensures BucketOf(Next(s, e).limiter.peers, key) ==
            if key == e.key then Some(PeerAfter(s.limiter, e.key, e.r))
            else if Evicts(s.limiter, e.key, key) then None else BucketOf(s.limiter.peers, key)
  {
    SendChanges(s.limiter, e.key, e.r, key);
  }

  lemma SendToStaysWithin(s: State, e: Send, key: string, n: nat, from: real, to: real)
    requires StateValid(s) && InWindow([e], from, to) && PeerWithin(s, key, n, from, to)
    requires !Evicts(s.limiter, e.key, key)
    ensures PeerWithin(Next(s, e), key, n + if e.key == key && Grants(s, e) then 1 else 0, from, to)
  {
    assert from <= [e][0].r.newTotal && [e][0].r.takePeer <= to;
    hide Rated, Within, PeerAfter, StateValid, InOrder, Evicts, BucketOf;
    if Timely(s, e) {
      if e.key == key { PeerStaysWithin(s, e, from, n); }
      NextPeers(s, e, key);
    }
  }

  lemma {:induction false} RunStaysWithin(s: State, es: seq<Send>, from: real, to: real)
    requires StateValid(s) && InWindow(es, from, to)
    ensures TotalWithin(After(s, es), Granted(s, es), from, to)
  {
    if es != [] {
      var rest, e := es[..|es| - 1], es[|es| - 1];
      assert InWindow(rest, from, to) && InWindow([e], from, to);
      hide Next, Grants, TotalWithin, StateValid, InWindow;
      RunStaysWithin(s, rest, from, to);
      AfterIsValid(s, rest);
      SendStaysWithin(After(s, rest), e, Granted(s, rest), from, to);
    }
  }

  lemma {:induction false} RunToStaysWithin(s: State, es: seq<Send>, key: string, from: real, to: real)
    requires StateValid(s) && InWindow(es, from, to) && NeverEvicted(s, es, key)
    ensures PeerWithin(After(s, es), key, GrantedTo(s, es, key), from, to)
  {
    if es != [] {
      var rest, e := es[..|es| - 1], es[|es| - 1];
      assert InWindow(rest, from, to) && InWindow([e], from, to);
      hide Next, Grants, PeerWithin, StateValid, InWindow, Evicts;
      RunToStaysWithin(s, rest, key, from, to);
      AfterIsValid(s, rest);
      SendToStaysWithin(After(s, rest), e, key, GrantedTo(s, rest, key), from, to);
    }
  }

  lemma WithinBounds(b: Bucket, rate: real, from: real, to: real, granted: nat)
    requires OfRate(b, rate, to) && Within(b, from, granted)
    ensures granted as real <= rate + Gained(rate, to - from)
  {
    GainAdds(rate, b.last - from, to - b.last);
    GainIsPositive(rate, to - b.last);
    hide Gained;
  }

  // In any stretch of a run whose readings fall in [from, to], the channel is granted at most a full
  // bucket and the inflow of that time.
  lemma WindowIsBounded(s: State, es: seq<Send>, from: real, to: real)
    requires StateValid(s) && InWindow(es, from, to) && from <= to
    ensures var rate := s.limiter.ratePerMin;
            Granted(s, es) as real <= rate + (to - from) * rate / 60000.0
  {
    StretchGainsAtMost(s, es, from, to);
    GainIs(s.limiter.ratePerMin, to - from);
    hide *;
  }

  // ... and so is each recipient, while its bucket is not evicted.
  lemma PeerWindowIsBounded(s: State, es: seq<Send>, key: string, from: real, to: real)
    requires StateValid(s) && InWindow(es, from, to) && from <= to && NeverEvicted(s, es, key)
    ensures var rate := s.limiter.ratePerPeerPerMin;
            GrantedTo(s, es, key) as real <= rate + (to - from) * rate / 60000.0
  {
    StretchGainsPeerAtMost(s, es, key, from, to);
    GainIs(s.limiter.ratePerPeerPerMin, to - from);
    hide *;
  }

  lemma StretchGainsAtMost(s: State, es: seq<Send>, from: real, to: real)
    requires StateValid(s) && InWindow(es, from, to) && from <= to
    ensures var rate := s.limiter.ratePerMin;
            Granted(s, es) as real <= rate + Gained(rate, to - from)
  {
    var rate := s.limiter.ratePerMin;
    RunStaysWithin(s, es, from, to);
    AfterIsValid(s, es);
    hide Gained, Granted, After;
    var t := After(s, es).limiter.total;
    if Granted(s, es) > 0 {
      assert OfRate(t.value, rate, to);
      WithinBounds(t.value, rate, from, to, Granted(s, es));
    } else {
      GainIsPositive(rate, to - from);
    }
  }

  lemma StretchGainsPeerAtMost(s: State, es: seq<Send>, key: string, from: real, to: real)
    requires StateValid(s) && InWindow(es, from, to) && from <= to && NeverEvicted(s, es, key)
    ensures var rate := s.limiter.ratePerPeerPerMin;
            GrantedTo(s, es, key) as real <= rate + Gained(rate, to - from)
  {
    var rate := s.limiter.ratePerPeerPerMin;
    RunToStaysWithin(s, es, key, from, to);
    AfterIsValid(s, es);
    hide Gained, GrantedTo, After;
    var peers := After(s, es).limiter.peers;
    var i := Find(peers, key);
    if GrantedTo(s, es, key) > 0 {
      assert peers[i.value] in peers;
      assert OfRate(peers[i.value].1, rate, to);
      WithinBounds(peers[i.value].1, rate, from, to, GrantedTo(s, es, key));
    } else {
      GainIsPositive(rate, to - from);
    }
  }

  // Every state of a run from the beginning is one of those.
  lemma RunsAreValid(ratePerMin: real, ratePerPeerPerMin: real, now: real, es: seq<Send>)
    requires 1.0 <= ratePerMin && 1.0 <= ratePerPeerPerMin
    ensures StateValid(After(Begin(ratePerMin, ratePerPeerPerMin, now), es))
  {
    AfterIsValid(Begin(ratePerMin, ratePerPeerPerMin, now), es);
  }

  class TokenBucket {
    const capacity: real
    const perMin: real
    var tokens: real
    var last: real

    ghost function Now(): Bucket
      reads this
    {
      Bucket(capacity, perMin, tokens, last)
    }

    constructor (capacity: real, perMin: real, now: real)
      ensures Now() == NewBucket(capacity, perMin, now)
    {
      this.capacity, this.perMin, tokens, last := capacity, perMin, capacity, now;
    }

    method Refill(t: real)
      modifies this
      ensures Now() == Refilled(old(Now()), t)
    {
      var inflow := (t - last) * (perMin / 60000.0);
      assert inflow == Gained(perMin, t - last);
      tokens := Min(capacity, tokens + inflow);
      last := t;
    }

    method Peek(t: real) returns (ok: bool)
      modifies this
      ensures Now() == Refilled(old(Now()), t)
      ensures ok <==> Level(old(Now()), t) >= 1.0
    {
      Refill(t);
      return tokens >= 1.0;
    }

    method Take(t: real) returns (ok: bool)
      modifies this
      ensures Now() == Taken(old(Now()), t)
      ensures ok <==> Level(old(Now()), t) >= 1.0
    {
      Refill(t);
      if tokens < 1.0 { return false; }
      tokens := tokens - 1.0;
      return true;
    }
  }

  // The buckets as rateOk holds them: one object each, the recipients' in a Map.
  class RateLimiter {
    const ratePerMin: real
    const ratePerPeerPerMin: real
    var globalBucket: TokenBucket?
    var peerBuckets: seq<(string, TokenBucket)>

    // No two places hold the same bucket object.
    ghost predicate Apart()
      reads this
    {
      && (forall i | 0 <= i < |peerBuckets| :: peerBuckets[i].1 != globalBucket)
      && (forall i, j | 0 <= i < j < |peerBuckets| :: peerBuckets[i].1 != peerBuckets[j].1)
    }

    ghost function Buckets(): set<object>
      reads this
    {
      (set i | 0 <= i < |peerBuckets| :: peerBuckets[i].1) + (if globalBucket == null then {} else {globalBucket})
    }

    ghost function Now(): Limiter
      reads this, Buckets()
    {
      Limiter(ratePerMin, ratePerPeerPerMin, if globalBucket == null then None else Some(globalBucket.Now()),
              seq(|peerBuckets|, i requires 0 <= i < |peerBuckets| reads this, Buckets() =>
                (peerBuckets[i].0, peerBuckets[i].1.Now())))
    }

    constructor (ratePerMin: real, ratePerPeerPerMin: real)
      ensures Apart() && Now() == Limiter(ratePerMin, ratePerPeerPerMin, None, [])
    {
      this.ratePerMin, this.ratePerPeerPerMin := ratePerMin, ratePerPeerPerMin;
      globalBucket, peerBuckets := null, [];
    }

    method IndexOf(key: string) returns (r: Option<nat>)
      requires Apart()
      ensures r == Find(Now().peers, key)
    {
      for i := 0 to |peerBuckets|
        invariant forall j | 0 <= j < i :: peerBuckets[j].0 != key
      {
        if peerBuckets[i].0 == key { FirstIs(Now().peers, key, i); return Some(i); }
      }
      return None;
    }

    method EnsureGlobal(now: real)
      requires Apart()
      modifies this`globalBucket
      ensures Apart() && fresh(Buckets() - old(Buckets())) && globalBucket != null
      ensures var was := old(Now());
              Now() == was.(total := if was.total.Some? then was.total else Some(NewBucket(ratePerMin, ratePerMin, now)))
    {
      if globalBucket == null {
        globalBucket := new TokenBucket(ratePerMin, ratePerMin, now);
        assert Now().peers == old(Now()).peers;
      }
    }

    method EvictOldestPeer()
      requires Apart()
      modifies this`peerBuckets
      ensures Apart() && Buckets() <= old(Buckets())
      ensures Now() == old(Now()).(peers := EvictOldest(old(Now()).peers))
    {
      if |peerBuckets| >= MAX_TRACKED_KEYS {
        peerBuckets := peerBuckets[1..];
        assert forall i | 0 <= i < |peerBuckets| :: peerBuckets[i] == old(peerBuckets)[i + 1];
      }
      assert Now().peers == EvictOldest(old(Now()).peers);
    }

    method AppendPeer(key: string, now: real)
      requires Apart()
      modifies this`peerBuckets
      ensures Apart() && fresh(Buckets() - old(Buckets()))
      ensures Now() == old(Now()).(
                peers := old(Now()).peers + [(key, NewBucket(ratePerPeerPerMin, ratePerPeerPerMin, now))])
    {
      var bucket := new TokenBucket(ratePerPeerPerMin, ratePerPeerPerMin, now);
      peerBuckets := peerBuckets + [(key, bucket)];
      assert Now().peers == old(Now()).peers + [(key, NewBucket(ratePerPeerPerMin, ratePerPeerPerMin, now))];
    }

    method EnsurePeer(key: string, r: Readings) returns (i: nat)
      requires Apart()
      modifies this`peerBuckets
      ensures Apart() && fresh(Buckets() - old(Buckets()))
      ensures i < |peerBuckets| && Find(Now().peers, key) == Some(i)
      ensures Now() == old(Now()).(peers := PeersWith(old(Now()), key, r))
    {
      ghost var was := Now();
      hide EvictOldest, Find, NewBucket;
      var found := IndexOf(key);
      if found.Some? {
        i := found.value;
      } else {
        EvictOldestPeer();
        i := |peerBuckets|;
        AppendPeer(key, r.newPeer);
        NewIsLast(was, key, r);
      }
    }

    method EnsureBuckets(key: string, r: Readings) returns (i: nat)
      requires Apart()
      modifies this
      ensures Apart() && fresh(Buckets() - old(Buckets()))
      ensures globalBucket != null && i < |peerBuckets| && Find(Now().peers, key) == Some(i)
      ensures var was := old(Now());
              Now() == was.(total := Some(TotalOf(was, r)), peers := PeersWith(was, key, r))
    {
      EnsureGlobal(r.newTotal);
      hide EvictOldest, Find, NewBucket;
      i := EnsurePeer(key, r);
    }

    method RateOk(key: string, r: Readings) returns (ok: bool)
      requires Apart()
      modifies this, Buckets()
      ensures Apart() && (Now(), ok) == Rated(old(Now()), key, r)
    {
      var i := EnsureBuckets(key, r);
      ghost var now := Now();
      hide PeersWith, TotalOf, Find, EvictOldest;
      var pb := peerBuckets[i].1;
      ok := globalBucket.Peek(r.peekTotal);
      assert Now().peers == now.peers;
      if ok {
        ok := pb.Peek(r.peekPeer);
        assert Now().peers == now.peers[i := (key, Refilled(now.peers[i].1, r.peekPeer))];
      }
      if ok {
        var _ := globalBucket.Take(r.takeTotal);
        var _ := pb.Take(r.takePeer);
        assert Now().peers == now.peers[i := (key, Taken(Refilled(now.peers[i].1, r.peekPeer), r.takePeer))];
      }
    }
  }
}
