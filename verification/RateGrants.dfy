// What the send budget of a2a-channel.ts lets through: when a token is there again, and which sends
// are never refused.
module RateGrants {
  import opened Wrappers
  import opened RateLimit

  // A bucket with less than a token, left alone, holds one again exactly from the instant at which what
  // is missing has flowed in; an emptied one after 60000 / perMin ms.
  lemma TokenIsBackExactly(b: Bucket, t: real)
    requires BucketValid(b) && b.tokens < 1.0 && b.last <= t
    ensures Level(b, t) >= 1.0 <==> t - b.last >= (1.0 - b.tokens) * 60000.0 / b.perMin
    ensures b.tokens == 0.0 ==> (Level(b, t) >= 1.0 <==> t >= b.last + 60000.0 / b.perMin)
  {
    var span, missing := t - b.last, 1.0 - b.tokens;
    GainIs(b.perMin, span);
    Divided(missing * 60000.0, b.perMin, span);
    Divided(60000.0, b.perMin, span);
  }

  lemma Divided(x: real, y: real, z: real)
    requires y > 0.0
    ensures z >= x / y <==> z * y >= x
  {
    assert x / y * y == x;
    Scaled(x / y, z, y);
  }

  lemma Scaled(a: real, b: real, y: real)
    requires y > 0.0
    ensures a <= b <==> a * y <= b * y
  {
  }

  // Any valid bucket holds a token once 60000 / perMin ms have passed since its last use.
  lemma WaitingIsEnough(b: Bucket, t: real)
    requires BucketValid(b) && t >= b.last + 60000.0 / b.perMin
    ensures Level(b, t) >= 1.0
  {
    assert 60000.0 / b.perMin > 0.0;
    GainIsPositive(b.perMin, t - b.last);
    GainIs(b.perMin, t - b.last);
    Divided(60000.0, b.perMin, t - b.last);
  }

  // ---- Spaced sends ----

  // Each send comes 60000 / perMin ms or more after the clock readings of the one before, for both rates.
  predicate Spaced(s: State, e: Send) {
    && Timely(s, e) && 0.0 < s.limiter.ratePerMin && 0.0 < s.limiter.ratePerPeerPerMin
    && e.r.newTotal >= s.clock + 60000.0 / s.limiter.ratePerMin
    && e.r.newTotal >= s.clock + 60000.0 / s.limiter.ratePerPeerPerMin
  }

  lemma SpacedSendIsGranted(s: State, e: Send)
    requires StateValid(s) && Spaced(s, e)
    ensures Grants(s, e)
  {
    SendChanges(s.limiter, e.key, e.r, e.key);
    BucketsAtSend(s, e);
    var total, peer := TotalOf(s.limiter, e.r), PeerOf(s.limiter, e.key, e.r);
    hide Rated, Level, TotalOf, PeerOf, BucketValid;
    if s.limiter.total.Some? { WaitingIsEnough(total, e.r.peekTotal); } else { FullIsEnough(total, e.r.peekTotal); }
    if BucketOf(s.limiter.peers, e.key).Some? { WaitingIsEnough(peer, e.r.peekPeer); } else { FullIsEnough(peer, e.r.peekPeer); }
  }

  lemma FullIsEnough(b: Bucket, t: real)
    requires BucketValid(b) && b.tokens == b.capacity && b.last <= t
    ensures Level(b, t) >= 1.0
  {
    GainIsPositive(b.perMin, t - b.last);
  }

  // The buckets a send draws on are of their rates, and last used before it or new and full.
  lemma BucketsAtSend(s: State, e: Send)
    requires StateValid(s) && Timely(s, e)
    ensures var total, peer := TotalOf(s.limiter, e.r), PeerOf(s.limiter, e.key, e.r);
            && BucketValid(total) && total.perMin == total.capacity == s.limiter.ratePerMin
            && (if s.limiter.total.Some? then total == s.limiter.total.value && total.last <= s.clock
                else total.tokens == total.capacity && total.last == e.r.newTotal)
            && BucketValid(peer) && peer.perMin == peer.capacity == s.limiter.ratePerPeerPerMin
            && (if BucketOf(s.limiter.peers, e.key).Some?
                then peer == BucketOf(s.limiter.peers, e.key).value && peer.last <= s.clock
                else peer.tokens == peer.capacity && peer.last == e.r.newPeer)
  {
    var i := Find(s.limiter.peers, e.key);
    if i.Some? { assert s.limiter.peers[i.value] in s.limiter.peers; }
  }

  predicate AllSpaced(s: State, es: seq<Send>) {
    es == [] || (AllSpaced(s, es[..|es| - 1]) && Spaced(After(s, es[..|es| - 1]), es[|es| - 1]))
  }

  // Sends that far apart are never refused, whatever went before and whoever they go to.
  lemma {:induction false} SpacedSendsAreGranted(s: State, es: seq<Send>)
    requires StateValid(s) && AllSpaced(s, es)
    ensures Granted(s, es) == |es|
  {
    if es != [] {
      SpacedSendsAreGranted(s, es[..|es| - 1]);
      AfterIsValid(s, es[..|es| - 1]);
      SpacedSendIsGranted(After(s, es[..|es| - 1]), es[|es| - 1]);
    }
  }

  // ---- The burst ----

  predicate AllTimely(s: State, es: seq<Send>) {
    es == [] || (AllTimely(s, es[..|es| - 1]) && Timely(After(s, es[..|es| - 1]), es[|es| - 1]))
  }

  // After n sends no bucket has lost more than n tokens.
  ghost predicate LostAtMost(s: State, n: nat) {
    && (s.limiter.total.Some? ==> s.limiter.total.value.tokens >= s.limiter.ratePerMin - n as real)
    && forall key :: BucketOf(s.limiter.peers, key).Some? ==>
         BucketOf(s.limiter.peers, key).value.tokens >= s.limiter.ratePerPeerPerMin - n as real
  }

  lemma LevelAtLeast(b: Bucket, t: real, floor: real)
    requires BucketValid(b) && b.last <= t && floor <= b.tokens
    ensures floor <= Level(b, t)
  {
    GainIsPositive(b.perMin, t - b.last);
  }

  lemma SendLosesOne(s: State, e: Send, n: nat)
    requires StateValid(s) && Timely(s, e) && LostAtMost(s, n)
    requires (n + 1) as real <= s.limiter.ratePerMin && (n + 1) as real <= s.limiter.ratePerPeerPerMin
    ensures Grants(s, e) && LostAtMost(Next(s, e), n + 1)
  {
    var total, peer := TotalOf(s.limiter, e.r), PeerOf(s.limiter, e.key, e.r);
    BucketsAtSend(s, e);
    SendChanges(s.limiter, e.key, e.r, e.key);
    RefusalIsFreeGrantCostsOne(s.limiter, e.key, e.r, e.r.takePeer);
    NextTotal(s, e);
    NextKeepsValid(s, e);
    hide Rated, Level, BucketValid, TotalOf, PeerOf, TotalAfter, PeerAfter, Next, Find, Evicts;
    LevelAtLeast(total, e.r.peekTotal, s.limiter.ratePerMin - n as real);
    LevelAtLeast(peer, e.r.peekPeer, s.limiter.ratePerPeerPerMin - n as real);
    LevelAtLeast(total, e.r.takeTotal, s.limiter.ratePerMin - n as real);
    LevelAtLeast(peer, e.r.takePeer, s.limiter.ratePerPeerPerMin - n as real);
    forall key | BucketOf(Next(s, e).limiter.peers, key).Some?
      ensures BucketOf(Next(s, e).limiter.peers, key).value.tokens >= s.limiter.ratePerPeerPerMin - (n + 1) as real
    {
      NextPeers(s, e, key);
    }
  }

  // From the start, the first sends are granted up to the smaller of the two rates, however fast they
  // come: the burst that the bound of a window allows.
  lemma {:induction false} FirstSendsAreGranted(ratePerMin: real, ratePerPeerPerMin: real, now: real, es: seq<Send>)
    requires 1.0 <= ratePerMin && 1.0 <= ratePerPeerPerMin
    requires AllTimely(Begin(ratePerMin, ratePerPeerPerMin, now), es)
    requires |es| as real <= ratePerMin && |es| as real <= ratePerPeerPerMin
    ensures var s := Begin(ratePerMin, ratePerPeerPerMin, now);
            Granted(s, es) == |es| && LostAtMost(After(s, es), |es|)
  {
    var s := Begin(ratePerMin, ratePerPeerPerMin, now);
    if es != [] {
      FirstSendsAreGranted(ratePerMin, ratePerPeerPerMin, now, es[..|es| - 1]);
      AfterIsValid(s, es[..|es| - 1]);
      SendLosesOne(After(s, es[..|es| - 1]), es[|es| - 1], |es| - 1);
      hide LostAtMost, Next, Grants;
    }
  }
}
