// PendingMap of uds_frame.ts: promises that wait under a key until someone settles them or their
// timer fires.
module Pending {
  import opened Wrappers

  datatype Settlement<+V> = Resolved(value: V) | Rejected | TimedOut

  // Promises are numbered in the order of their registration. keys holds the key each one was
  // registered under, entries the promises still waiting, timers the timers still armed, and
  // settled how every other promise ended.
  datatype Book<K(==), V> = Book(keys: seq<K>, entries: map<K, nat>, timers: set<nat>, settled: map<nat, Settlement<V>>)

  function EmptyBook<K(==), V>(): Book<K, V> { Book([], map[], {}, map[]) }

  function Without<K, V>(m: map<K, V>, key: K): map<K, V> {
    map k | k in m && k != key :: m[k]
  }

  function Registered<K, V>(b: Book<K, V>, key: K): Option<Book<K, V>> {
    if key in b.entries then None
    else Some(Book(b.keys + [key], b.entries[key := |b.keys|], b.timers + {|b.keys|}, b.settled))
  }

  function Settled<K, V>(b: Book<K, V>, key: K, how: Settlement<V>): (Book<K, V>, bool) {
    if key !in b.entries then (b, false)
    else
      var i := b.entries[key];
      (Book(b.keys, Without(b.entries, key), b.timers - {i}, b.settled[i := how]), true)
  }

  function AllRejected<K, V>(b: Book<K, V>): Book<K, V> {
    var t := Rejecting(b, b.entries.Values);
    t.(entries := map[])
  }

  // The promises of a set lose their timers and are rejected.
  function Rejecting<K, V>(b: Book<K, V>, done: set<nat>): Book<K, V> {
    b.(timers := b.timers - done, settled := b.settled + map i | i in done :: Rejected)
  }

  lemma RejectingNone<K, V>(b: Book<K, V>)
    ensures Rejecting(b, {}) == b
  {
    var none: set<nat> := {};
    assert b.settled + (map i | i in none :: Rejected) == b.settled;
  }

  lemma RejectingOneMore<K, V>(b: Book<K, V>, done: set<nat>, i: nat)
    ensures Rejecting(b, done + {i}) ==
              Rejecting(b, done).(timers := Rejecting(b, done).timers - {i}, settled := Rejecting(b, done).settled[i := Rejected])
  {
  }

  // The timer callback deletes whatever waits under its key and rejects its own promise.
  function Fired<K, V>(b: Book<K, V>, i: nat): Book<K, V>
    requires i < |b.keys|
  {
    if b.keys[i] !in b.entries then b.(timers := b.timers - {i})
    else Book(b.keys, Without(b.entries, b.keys[i]), b.timers - {i}, b.settled[i := TimedOut])
  }

  // Each promise waits under its own key with its timer armed, or has settled, never both.
  ghost predicate Valid<K, V>(b: Book<K, V>) {
    && (forall k <- b.entries :: b.entries[k] < |b.keys| && b.keys[b.entries[k]] == k)
    && b.timers == b.entries.Values
    && (forall i: nat :: i in b.settled <==> i < |b.keys| && i !in b.entries.Values)
  }

  // A settlement is final, and no promise is forgotten.
  ghost predicate Later<K, V>(b: Book<K, V>, c: Book<K, V>) {
    && b.keys <= c.keys
    && (forall i <- b.settled :: i in c.settled && c.settled[i] == b.settled[i])
  }

  lemma AddedValues<K>(m: map<K, nat>, key: K, i: nat)
    requires key !in m
    ensures m[key := i].Values == m.Values + {i} && |m[key := i]| == |m| + 1
  {
    var n := m[key := i];
    assert n.Keys == m.Keys + {key} && n[key] == i;
    forall j | j in m.Values ensures j in n.Values {
      var k :| k in m && m[k] == j;
      assert n[k] == j;
    }
  }

  lemma RegisterKeeps<K, V>(b: Book<K, V>, key: K)
    requires Valid(b)
    ensures match Registered(b, key)
            case None => key in b.entries
            case Some(c) => Valid(c) && Later(b, c) && |c.entries| == |b.entries| + 1
  {
    if key !in b.entries { AddedValues(b.entries, key, |b.keys|); }
  }

  lemma RemovedValues<K, V>(b: Book<K, V>, key: K)
    requires Valid(b) && key in b.entries
    ensures Without(b.entries, key).Values == b.entries.Values - {b.entries[key]}
    ensures |Without(b.entries, key)| == |b.entries| - 1
  {
    var m := Without(b.entries, key);
    assert m.Keys == b.entries.Keys - {key};
    forall i | i in b.entries.Values && i != b.entries[key] ensures i in m.Values {
      var k :| k in b.entries && b.entries[k] == i;
      assert m[k] == i;
    }
  }

  lemma SettleKeeps<K, V>(b: Book<K, V>, key: K, how: Settlement<V>)
    requires Valid(b)
    ensures var (c, hit) := Settled(b, key, how);
            && Valid(c) && Later(b, c) && |c.entries| <= |b.entries| && c.keys == b.keys
            && (hit <==> key in b.entries)
            && (forall i <- c.settled :: i in b.settled || (hit && i == b.entries[key] && c.settled[i] == how))
  {
    if key in b.entries { RemovedValues(b, key); }
  }

  lemma AllRejectedKeeps<K, V>(b: Book<K, V>)
    requires Valid(b)
    ensures Valid(AllRejected(b)) && Later(b, AllRejected(b)) && AllRejected(b).entries == map[]
    ensures forall i <- AllRejected(b).settled :: i in b.settled || AllRejected(b).settled[i] == Rejected
  {}

  // An armed timer finds its own promise, never a later one under the same key.
  lemma FireKeeps<K, V>(b: Book<K, V>, i: nat)
    requires Valid(b) && i in b.timers
    ensures i < |b.keys| && b.keys[i] in b.entries && b.entries[b.keys[i]] == i
    ensures Fired(b, i) == Settled(b, b.keys[i], TimedOut).0
    ensures Valid(Fired(b, i)) && Later(b, Fired(b, i)) && |Fired(b, i).entries| <= |b.entries|
  {
    var k :| k in b.entries && b.entries[k] == i;
    SettleKeeps(b, k, TimedOut);
  }

  class PendingMap<K(==), V> {
    var entries: map<K, nat>
    var timers: set<nat>
    var nextPromise: nat
    ghost var keys: seq<K>
    ghost var settled: map<nat, Settlement<V>>

    ghost function Now(): Book<K, V> reads this { Book(keys, entries, timers, settled) }

    ghost predicate Ok() reads this { Valid(Now()) && nextPromise == |keys| }

    constructor ()
      ensures Ok() && Now() == EmptyBook()
    {
      entries, timers, nextPromise, keys, settled := map[], {}, 0, [], map[];
    }

    // None where register() throws: the timeout is not a finite non-negative number, or the key waits already.
    method Register(key: K, timeoutMs: Option<int>) returns (promise: Option<nat>)
      requires Ok()
      modifies this
      ensures Ok()
      ensures if timeoutMs.None? || timeoutMs.value < 0 || key in old(entries)
              then promise == None && Now() == old(Now())
              else promise == Some(|old(keys)|) && Some(Now()) == Registered(old(Now()), key)
    {
      hide Valid;
      RegisterKeeps(Now(), key);
      if timeoutMs.None? || timeoutMs.value < 0 || key in entries {
        return None;
      }
      promise := Some(nextPromise);
      entries := entries[key := nextPromise];
      timers := timers + {nextPromise};
      keys := keys + [key];
      nextPromise := nextPromise + 1;
    }

    method Settle(key: K, how: Settlement<V>) returns (hit: bool)
      requires Ok()
      modifies this
      ensures Ok() && (Now(), hit) == Settled(old(Now()), key, how)
    {
      SettleKeeps(Now(), key, how);
      if key !in entries { return false; }
      var i := entries[key];
      entries := Without(entries, key);
      timers := timers - {i};
      settled := settled[i := how];
      hit := true;
    }

    method RejectAll()
      requires Ok()
      modifies this
      ensures Ok() && Now() == AllRejected(old(Now()))
    {
      hide Rejecting, Valid;
      ghost var was, done: set<nat> := Now(), {};
      var waiting := entries.Values;
      entries := map[];
      RejectingNone(was);
      while waiting != {}
        invariant was.entries.Values == done + waiting && nextPromise == old(nextPromise) && keys == old(keys)
        invariant Now() == Rejecting(was, done).(entries := map[])
        decreases |waiting|
      {
        var i :| i in waiting;
        RejectingOneMore(was, done, i);
        timers := timers - {i};
        settled := settled[i := Rejected];
        waiting, done := waiting - {i}, done + {i};
      }
      assert done == was.entries.Values;
      assert Valid(AllRejected(was)) by { AllRejectedKeeps(was); }
    }

    method Fire(i: nat, key: K)
      requires Ok() && i in timers && i < |keys| && keys[i] == key
      modifies this
      ensures Ok() && Now() == Fired(old(Now()), i)
    {
      FireKeeps(Now(), i);
      timers := timers - {i};
      if key in entries {
        entries := Without(entries, key);
        settled := settled[i := TimedOut];
      }
    }
  }
}
