// What one round of a claimer of presence.ts brings about when its requests are answered at once, and
// what each answer, failure and loss means for its ownership.
module PresenceProgress {
  import opened Wrappers
  import opened Presence

  // The store executes the request under this number and the claimer gets the reply.
  function Answer(ttl: int, s: System, id: nat): System {
    Next(ttl, Next(ttl, s, Execute(id)), Deliver(id))
  }

  // ---- A maintain tick ----

  // An owner that ticks while the record bears its token has it armed anew and goes on owning; one that
  // finds it gone, expired or another's gives up its ownership and leaves the store as it is.
  lemma HeartbeatDecides(ttl: int, s: System, token: nat, id: nat)
    requires Unused(s, id) && IsOwned(At(s, token))
    ensures var t := Answer(ttl, Next(ttl, s, Maintain(token, id)), id);
            && IsOwned(At(t, token)) == Bears(s.store, token)
            && (Bears(s.store, token) ==>
                  t.store.key == Some(Record(Some(token), s.store.now + ttl)) && At(t, token).lastOwnedAt == s.store.now)
            && (!Bears(s.store, token) ==> t.store == s.store && At(t, token).started)
            && t.requests == s.requests
  {
  }

  // A claimer that does not own and finds its own record, as after a lost reply, owns again after the
  // claim, the look at the record, and its renewal.
  lemma OwnRecordIsReclaimed(ttl: int, s: System, token: nat, id: nat)
    requires Unused(s, id) && At(s, token).started && !At(s, token).owned && Bears(s.store, token)
    ensures var u := Answer(ttl, Answer(ttl, Next(ttl, s, Maintain(token, id)), id), id);
            var t := Answer(ttl, u, id);
            && !IsOwned(At(u, token))
            && IsOwned(At(t, token)) && At(t, token).lastOwnedAt == s.store.now
            && t.store.key == Some(Record(Some(token), s.store.now + ttl)) && t.requests == s.requests
  {
    ClaimIsRefused(ttl, s, token, id);
    var v := Answer(ttl, Next(ttl, s, Maintain(token, id)), id);
    LookFindsOwn(ttl, v, token, id);
    hide Answer, Next;
    var u := Answer(ttl, v, id);
    RenewalOwns(ttl, u, token, id);
    assert s.requests[id := Request(token, Expire, None)] - {id} == s.requests;
  }

  lemma ClaimIsRefused(ttl: int, s: System, token: nat, id: nat)
    requires Unused(s, id) && At(s, token).started && !At(s, token).owned && Live(s.store)
    ensures var t := Answer(ttl, Next(ttl, s, Maintain(token, id)), id);
            && t.store == s.store && t.requests == s.requests[id := Request(token, Get, None)] && At(t, token) == At(s, token)
  {
  }

  lemma LookFindsOwn(ttl: int, s: System, token: nat, id: nat)
    requires id in s.requests && s.requests[id] == Request(token, Get, None) && Bears(s.store, token)
    ensures var t := Answer(ttl, s, id);
            && t.store == s.store && t.requests == s.requests[id := Request(token, Expire, None)] && At(t, token) == At(s, token)
  {
  }

  lemma RenewalOwns(ttl: int, s: System, token: nat, id: nat)
    requires id in s.requests && s.requests[id] == Request(token, Expire, None) && Bears(s.store, token) && At(s, token).started
    ensures var t := Answer(ttl, s, id);
            && IsOwned(At(t, token)) && At(t, token).lastOwnedAt == s.store.now
            && t.store.key == Some(Record(Some(token), s.store.now + ttl)) && t.requests == s.requests - {id}
  {
  }

  // One that finds another's record, or a foreign one, leaves the store alone and does not own.
  lemma OthersRecordIsLeft(ttl: int, s: System, token: nat, id: nat)
    requires Unused(s, id) && At(s, token).started && !At(s, token).owned && Live(s.store) && !Bears(s.store, token)
    ensures var t := Answer(ttl, Answer(ttl, Next(ttl, s, Maintain(token, id)), id), id);
            t.store == s.store && !IsOwned(At(t, token)) && At(t, token).started && t.requests == s.requests
  {
  }

  // ---- Replies and failures ----

  // Every reply that confirms the record makes a started claimer the owner as of that instant, and sends
  // nothing; to a stopped one it brings the release.
  lemma ConfirmationOwns(ttl: int, s: System, id: nat)
    requires id in s.requests && !s.requests[id].command.Release?
    requires var r := s.requests[id];
             r.reply == Some(if r.command.Get? then Holder(Some(r.token)) else Yes) && (r.command.Get? || r.command.Beat? ==> At(s, r.token).started)
    ensures var r, t := s.requests[id], Next(ttl, s, Deliver(id));
            && (r.command.SetNx? || r.command.Expire? ==>
                  if At(s, r.token).started then
                    At(t, r.token) == Claimer(true, At(s, r.token).stopped, true, s.store.now) && id !in t.requests
                  else At(t, r.token) == At(s, r.token) && t.requests[id] == Request(r.token, Release, None))
            && (r.command.Beat? ==> At(t, r.token) == At(s, r.token).(lastOwnedAt := s.store.now) && id !in t.requests)
            && (r.command.Get? ==> At(t, r.token) == At(s, r.token) && t.requests[id] == Request(r.token, Expire, None))
  {
  }

  // Every reply that denies it ends the ownership, or leads to a look at the record.
  lemma DenialDisowns(ttl: int, s: System, id: nat)
    requires id in s.requests && s.requests[id].reply.Some?
    requires var r := s.requests[id];
             (r.command.Get? && r.reply != Some(Holder(Some(r.token)))) || (r.command.Beat? && r.reply != Some(Yes))
    ensures var r, t := s.requests[id], Next(ttl, s, Deliver(id));
            !IsOwned(At(t, r.token)) && At(t, r.token).started == At(s, r.token).started && id !in t.requests && t.store == s.store
  {
  }

  // A claim that fails ends the ownership at once; a release that fails, or is answered, changes nothing.
  lemma FailedClaimDisowns(ttl: int, s: System, id: nat)
    requires id in s.requests && !s.requests[id].command.Beat?
    ensures var r, t := s.requests[id], Next(ttl, s, Lose(id));
            && (r.command.Release? ==> At(t, r.token) == At(s, r.token))
            && (!r.command.Release? ==> At(t, r.token) == At(s, r.token).(owned := false))
            && id !in t.requests && t.store == s.store
            && (r.reply.None? ==> id in t.late && t.late[id] == (r.token, r.command)) && (r.reply.Some? ==> t.late == s.late)
    ensures s.requests[id].command.Release? && s.requests[id].reply.Some? ==>
              At(Next(ttl, s, Deliver(id)), s.requests[id].token) == At(s, s.requests[id].token)
  {
  }

  // ---- stop() ----

  // stop() gives up the ownership before anything is sent, and its release, executed, takes away exactly
  // the record that bears the token.
  lemma StopReleases(ttl: int, s: System, token: nat, id: nat)
    requires Unused(s, id)
    ensures var u := Next(ttl, s, Stop(token, id));
            var t := Answer(ttl, u, id);
            && !IsOwned(At(u, token)) && At(u, token).stopped && u.store == s.store
            && t.store.key == (if Bears(s.store, token) then None else s.store.key) && t.requests == s.requests
            && At(t, token) == At(u, token)
  {
  }

  // EXPIRE goes by the key: one that is executed after the record has passed to another claimer extends
  // that claimer's record, and keeps its token.
  lemma ExpireIsByKey(ttl: int, st: Store, token: nat)
    requires Live(st)
    ensures var (t, reply) := Executed(ttl, st, token, Expire);
            reply == Yes && t.key == Some(Record(st.key.value.token, st.now + ttl)) && t.now == st.now
  {
  }
}
