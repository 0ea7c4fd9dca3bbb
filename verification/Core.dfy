// The lifecycle of A2ACore in a2a_core.ts: start, stop, adding and removing sessions. Each event is
// a stretch of code without an await, so any order of events is an interleaving at the awaits.
module CoreLifecycle {
  import opened JsText
  import opened Wrappers

  // ---- The shared connections ----

  datatype StartStage =
    | NoStart | ConnectConsume | ConnectPublish | ConnectControl | ClaimPresence | LoadSigner
    | UndoPresence | UndoDrain(rest: seq<nat>)

  // openings counts the connections opened, numbered in that order; drained lists the drain() calls.
  datatype Boot = Boot(
    started: bool, startPromise: bool, start: StartStage,
    nc: Option<nat>, ncPublish: Option<nat>, ncControl: Option<nat>, redis: bool,
    openings: nat, drained: seq<nat>)

  // The distinct connections of the pool, in the order of the Set.
  function Pool(b: Boot): seq<nat> {
    var one := if b.nc.Some? then [b.nc.value] else [];
    var two := if b.ncPublish.Some? && b.ncPublish.value !in one then one + [b.ncPublish.value] else one;
    if b.ncControl.Some? && b.ncControl.value !in two then two + [b.ncControl.value] else two
  }

  function PoolCleared(b: Boot): Boot {
    b.(nc := None, ncPublish := None, ncControl := None, redis := false)
  }

  function Drained(b: Boot, conn: nat): Boot {
    b.(drained := b.drained + [conn])
  }

  // The await that _doStart is at succeeds; n is natsPoolSize.
  function StageDone(n: int, b: Boot): Boot {
    var id := b.openings;
    match b.start
    case ConnectConsume =>
      if n >= 2 then b.(nc := Some(id), start := ConnectPublish, openings := id + 1)
      else b.(nc := Some(id), ncPublish := Some(id), ncControl := Some(id), redis := true,
              start := ClaimPresence, openings := id + 1)
    case ConnectPublish =>
      if n >= 3 then b.(ncPublish := Some(id), start := ConnectControl, openings := id + 1)
      else b.(ncPublish := Some(id), ncControl := Some(id), redis := true, start := ClaimPresence, openings := id + 1)
    case ConnectControl => b.(ncControl := Some(id), redis := true, start := ClaimPresence, openings := id + 1)
    case ClaimPresence => b.(start := LoadSigner)
    case LoadSigner => b.(started := true, start := NoStart)
    case _ => b
  }

  // The drain loop of the catch block, up to its next await or its end.
  function BootDrained(b: Boot, rest: seq<nat>): Boot {
    if rest == [] then PoolCleared(b).(startPromise := false, start := NoStart)
    else Drained(b, rest[0]).(start := UndoDrain(rest[1..]))
  }

  function BootResumed(n: int, b: Boot, ok: bool): Boot {
    match b.start
    case NoStart => b
    case UndoPresence => BootDrained(b, Pool(b))
    case UndoDrain(rest) => BootDrained(b, rest)
    case _ => if ok then StageDone(n, b) else b.(start := UndoPresence)
  }

  // ---- The sessions ----

  datatype Session = Session(key: string, agentId: string, channel: nat, toolOnly: bool, epoch: Option<int>)

  // A call of addSession (epoch None) or addUdsSession: awaiting the channel's start, awaiting the
  // MCP server's connect, undoing a failed add, or settled.
  datatype AddStage = Starting | Connecting | RollingBack | Settled(ok: bool)
  datatype Add = Add(agentId: string, toolOnly: bool, epoch: Option<int>, stage: AddStage)

  // A call of removeSession past its lookup: awaiting the closes of what it took out of the map.
  datatype Removal = Removal(channel: nat, settled: bool)

  // The sessions map in insertion order and the calls in progress. startedChannels and
  // stoppedChannels are the channels whose start succeeded and whose stop ended.
  datatype Book = Book(
    sessions: seq<Session>, adds: map<nat, Add>, inflightAdds: set<nat>, removals: map<nat, Removal>,
    startedChannels: set<nat>, stoppedChannels: set<nat>)

  // /^[a-z0-9-]{1,64}$/, without which a channel never starts.
  predicate IsToken(s: string) {
    1 <= |s| <= 64 && forall i :: 0 <= i < |s| ==> ('a' <= s[i] <= 'z' || '0' <= s[i] <= '9' || s[i] == '-')
  }

  function ToolOnlyKey(agentId: string, epoch: int): string {
    agentId + "#tool:" + IntText(epoch)
  }

  function KeyOf(agentId: string, toolOnly: bool, epoch: Option<int>): string {
    if toolOnly && epoch.Some? then ToolOnlyKey(agentId, epoch.value) else agentId
  }

  predicate HasOwning(sessions: seq<Session>, agentId: string) {
    exists i | 0 <= i < |sessions| :: sessions[i].agentId == agentId && !sessions[i].toolOnly
  }

  predicate HasKey(sessions: seq<Session>, key: string) {
    exists i | 0 <= i < |sessions| :: sessions[i].key == key
  }

  // The first entry that satisfies the test, in insertion order.
  function First(sessions: seq<Session>, p: Session -> bool): (r: Option<nat>)
    ensures match r
            case None => forall i | 0 <= i < |sessions| :: !p(sessions[i])
            case Some(i) => i < |sessions| && p(sessions[i]) && forall j | 0 <= j < i :: !p(sessions[j])
  {
    if sessions == [] then None
    else if p(sessions[0]) then Some(0)
    else match First(sessions[1..], p) case None => None case Some(i) => Some(i + 1)
  }

  function FindSession(sessions: seq<Session>, agentId: string, epoch: Option<int>): (r: Option<nat>)
    ensures r.Some? ==> r.value < |sessions|
  {
    if epoch.Some? then First(sessions, (x: Session) => x.agentId == agentId && x.epoch == epoch)
    else
      var direct := First(sessions, (x: Session) => x.key == agentId);
      if direct.Some? then direct else First(sessions, (x: Session) => x.agentId == agentId)
  }

  // Map.set: an existing key keeps its place.
  function SetEntry(sessions: seq<Session>, x: Session): seq<Session> {
    match First(sessions, (y: Session) => y.key == x.key)
    case None => sessions + [x]
    case Some(i) => sessions[i := x]
  }

  function RemoveAt(sessions: seq<Session>, i: nat): seq<Session>
    requires i < |sessions|
  {
    sessions[..i] + sessions[i + 1..]
  }

  function AddCalled(k: Book, up: bool, id: nat, agentId: string, toolOnly: bool, epoch: Option<int>): Book {
    if id in k.adds || (toolOnly && epoch.None?) then k
    else if !up || (!toolOnly && HasOwning(k.sessions, agentId)) then
      k.(adds := k.adds[id := Add(agentId, toolOnly, epoch, Settled(false))])
    else
      k.(adds := k.adds[id := Add(agentId, toolOnly, epoch, Starting)], inflightAdds := k.inflightAdds + {id})
  }

  function Staged(k: Book, id: nat, stage: AddStage): Book
    requires id in k.adds
  {
    k.(adds := k.adds[id := k.adds[id].(stage := stage)])
  }

  predicate IsDuplicate(k: Book, a: Add) {
    if a.toolOnly then HasKey(k.sessions, KeyOf(a.agentId, true, a.epoch)) else HasOwning(k.sessions, a.agentId)
  }

  // The re-check after the awaits: insert, or roll back.
  function AddDecided(k: Book, up: bool, id: nat, ok: bool): Book
    requires id in k.adds
  {
    var a := k.adds[id];
    if !ok || !up || IsDuplicate(k, a) then Staged(k, id, RollingBack)
    else
      var x := Session(KeyOf(a.agentId, a.toolOnly, a.epoch), a.agentId, id, a.toolOnly, a.epoch);
      Staged(k, id, Settled(true)).(sessions := SetEntry(k.sessions, x))
  }

  function ChannelStarted(k: Book, id: nat): Book { k.(startedChannels := k.startedChannels + {id}) }
  function ChannelStopped(k: Book, id: nat): Book { k.(stoppedChannels := k.stoppedChannels + {id}) }

  function AddResumed(k: Book, up: bool, id: nat, ok: bool): Book
    requires id in k.adds
  {
    var a := k.adds[id];
    match a.stage
    case Starting =>
      if ok && IsToken(a.agentId) then
        if a.epoch.Some? then Staged(ChannelStarted(k, id), id, Connecting)
        else AddDecided(ChannelStarted(k, id), up, id, true)
      else AddDecided(k, up, id, false)
    case Connecting => AddDecided(k, up, id, ok)
    case RollingBack => Staged(ChannelStopped(k, id), id, Settled(false))
    case Settled(_) => k.(inflightAdds := k.inflightAdds - {id})
  }

  // The compare that keeps a late close of an older connection from evicting a newer session.
  predicate StaleEpoch(x: Session, epoch: Option<int>) {
    epoch.Some? && x.epoch.Some? && x.epoch != epoch
  }

  function RemoveCalled(k: Book, id: nat, agentId: string, epoch: Option<int>): Book {
    if id in k.removals then k
    else
      match FindSession(k.sessions, agentId, epoch)
      case None => k
      case Some(i) =>
        if StaleEpoch(k.sessions[i], epoch) then k
        else k.(sessions := RemoveAt(k.sessions, i),
                removals := k.removals[id := Removal(k.sessions[i].channel, false)])
  }

  function RemoveResumed(k: Book, id: nat): Book
    requires id in k.removals
  {
    ChannelStopped(k, k.removals[id].channel).(removals := k.removals[id := k.removals[id].(settled := true)])
  }

  // ---- The core ----

  datatype StopStage =
    | NoStop | AwaitStart | AwaitAdds(snapshot: set<nat>) | StopPresence
    | StopSession(visited: set<nat>, current: nat) | DrainConns(rest: seq<nat>) | Stopped

  datatype Core = Core(boot: Boot, stopping: bool, stop: StopStage, book: Book)

  const Fresh := Core(Boot(false, false, NoStart, None, None, None, false, 0, []), false, NoStop,
                      Book([], map[], {}, map[], {}, {}))

  function StartCalled(s: Core): Core {
    if s.stop != NoStop || s.boot.started || s.boot.startPromise then s
    else s.(boot := s.boot.(startPromise := true, start := ConnectConsume))
  }

  predicate CoreUp(s: Core) { s.boot.started && !s.stopping && s.boot.nc.Some? && s.boot.redis }

  function AddsAwaited(s: Core): Core {
    s.(stop := if s.book.inflightAdds != {} then AwaitAdds(s.book.inflightAdds) else StopPresence)
  }

  function StopCalled(s: Core): Core {
    if s.stop != NoStop then s
    else if s.boot.startPromise then s.(stopping := true, stop := AwaitStart)
    else AddsAwaited(s.(stopping := true))
  }

  function StopDrained(s: Core, rest: seq<nat>): Core {
    if rest == [] then s.(boot := PoolCleared(s.boot).(started := false), stop := Stopped)
    else s.(boot := Drained(s.boot, rest[0]), stop := DrainConns(rest[1..]))
  }

  // The session loop visits the entries still in the map, then the map is cleared and the pool drained.
  function NextSession(s: Core, visited: set<nat>): Core {
    match First(s.book.sessions, (x: Session) => x.channel !in visited)
    case Some(i) => s.(stop := StopSession(visited, s.book.sessions[i].channel))
    case None => StopDrained(s.(book := s.book.(sessions := [])), Pool(s.boot))
  }

  predicate AddsSettled(adds: map<nat, Add>, ids: set<nat>) {
    forall id <- ids :: id in adds && adds[id].stage.Settled?
  }

  function StopResumed(s: Core): Core {
    match s.stop
    case NoStop => s
    case AwaitStart => if s.boot.start == NoStart then AddsAwaited(s) else s
    case AwaitAdds(snapshot) => if AddsSettled(s.book.adds, snapshot) then s.(stop := StopPresence) else s
    case StopPresence => NextSession(s, {})
    case StopSession(visited, current) =>
      NextSession(s.(book := ChannelStopped(s.book, current)), visited + {current})
    case DrainConns(rest) => StopDrained(s, rest)
    case Stopped => s
  }

  datatype Event =
    | CallStart | ResumeStart(ok: bool)
    | CallAdd(id: nat, agentId: string, toolOnly: bool, epoch: Option<int>) | ResumeAdd(id: nat, ok: bool)
    | CallRemove(id: nat, agentId: string, epoch: Option<int>) | ResumeRemove(id: nat)
    | CallStop | ResumeStop

  function Next(n: int, s: Core, e: Event): Core {
    match e
    case CallStart => StartCalled(s)
    case ResumeStart(ok) => s.(boot := BootResumed(n, s.boot, ok))
    case CallAdd(id, agentId, toolOnly, epoch) =>
      s.(book := AddCalled(s.book, CoreUp(s), id, agentId, toolOnly, epoch))
    case ResumeAdd(id, ok) => if id in s.book.adds then s.(book := AddResumed(s.book, CoreUp(s), id, ok)) else s
    case CallRemove(id, agentId, epoch) => s.(book := RemoveCalled(s.book, id, agentId, epoch))
    case ResumeRemove(id) => if id in s.book.removals then s.(book := RemoveResumed(s.book, id)) else s
    case CallStop => StopCalled(s)
    case ResumeStop => StopResumed(s)
  }

  function Run(n: int, es: seq<Event>): Core {
    if es == [] then Fresh else Next(n, Run(n, es[..|es| - 1]), es[|es| - 1])
  }

  // ---- What every event keeps ----

  ghost predicate EntryValid(k: Book, x: Session) {
    && x.channel in k.adds && k.adds[x.channel] == Add(x.agentId, x.toolOnly, x.epoch, Settled(true))
    && IsToken(x.agentId) && (x.toolOnly ==> x.epoch.Some?)
    && x.key == KeyOf(x.agentId, x.toolOnly, x.epoch)
  }

  ghost predicate KeysDiffer(sessions: seq<Session>) {
    forall i, j | 0 <= i < j < |sessions| :: sessions[i].key != sessions[j].key
  }

  ghost predicate SessionsValid(k: Book) {
    (forall i | 0 <= i < |k.sessions| :: EntryValid(k, k.sessions[i])) && KeysDiffer(k.sessions)
  }

  ghost predicate InMap(k: Book, channel: nat) {
    exists i | 0 <= i < |k.sessions| :: k.sessions[i].channel == channel
  }

  ghost predicate BeingRemoved(k: Book, channel: nat) {
    exists id | id in k.removals :: k.removals[id] == Removal(channel, false)
  }

  ghost predicate InFlight(k: Book, channel: nat) {
    channel in k.adds && (k.adds[channel].stage.Connecting? || k.adds[channel].stage.RollingBack?)
  }

  // No channel that started is forgotten.
  ghost predicate Kept(k: Book, channel: nat) {
    InMap(k, channel) || InFlight(k, channel) || BeingRemoved(k, channel) || channel in k.stoppedChannels
  }

  ghost predicate AddValid(k: Book, id: nat)
    requires id in k.adds
  {
    var a := k.adds[id];
    && (a.stage.Connecting? ==> id in k.startedChannels && IsToken(a.agentId))
    && (a.toolOnly ==> a.epoch.Some?)
    && (!a.stage.Settled? ==> id in k.inflightAdds)
  }

  ghost predicate ChannelsValid(k: Book) {
    && (forall c <- k.startedChannels :: Kept(k, c))
    && (forall id <- k.adds :: AddValid(k, id))
    && k.inflightAdds <= k.adds.Keys
  }

  // The connections that a drain loop under way, or the pool, still has to drain.
  function Owed(s: Core): seq<nat> {
    if s.boot.start.UndoDrain? then s.boot.start.rest else if s.stop.DrainConns? then s.stop.rest else Pool(s.boot)
  }

  // Every connection opened is either owed or drained, once.
  ghost predicate Accounted(owed: seq<nat>, drained: seq<nat>, openings: nat) {
    forall c: nat :: multiset(owed)[c] + multiset(drained)[c] == if c < openings then 1 else 0
  }

  ghost predicate ConnsValid(s: Core) {
    Accounted(Owed(s), s.boot.drained, s.boot.openings)
  }

  ghost predicate BootValid(b: Boot) {
    && (b.start != NoStart ==> b.startPromise && !b.started)
    && (b.started ==> b.startPromise)
    && (!b.startPromise || b.start.ConnectConsume? ==> Pool(b) == [])
    && (b.start.ConnectPublish? ==> b.nc.Some? && b.ncPublish.None? && b.ncControl.None?)
    && (b.start.ConnectControl? ==> b.nc.Some? && b.ncPublish.Some? && b.ncControl.None?)
  }

  predicate PastAdds(stop: StopStage) {
    !stop.NoStop? && !stop.AwaitStart? && !stop.AwaitAdds?
  }

  ghost predicate StopValid(s: Core) {
    && (s.stopping <==> s.stop != NoStop)
    && (s.boot.start != NoStart ==> s.stop.NoStop? || s.stop.AwaitStart?)
    && (s.stop.AwaitAdds? ==> s.stop.snapshot <= s.book.adds.Keys)
    && (s.stop.AwaitAdds? ==> forall id <- s.book.adds :: !s.book.adds[id].stage.Settled? ==> id in s.stop.snapshot)
    && (PastAdds(s.stop) ==> AddsSettled(s.book.adds, s.book.adds.Keys))
    && (s.stop.StopSession? ==> s.stop.visited <= s.book.stoppedChannels)
    && (s.stop.DrainConns? || s.stop.Stopped? ==> s.book.sessions == [])
    && (s.stop.Stopped? ==> !s.boot.started && Pool(s.boot) == [])
    && (s.stop.DrainConns? && s.stop.rest != [] ==> s.boot.startPromise)
  }

  ghost predicate Inv(s: Core) {
    SessionsValid(s.book) && ChannelsValid(s.book) && ConnsValid(s) && BootValid(s.boot) && StopValid(s)
  }

  // ---- Connections ----

  lemma OpenOne(owed: seq<nat>, drained: seq<nat>, openings: nat)
    requires Accounted(owed, drained, openings)
    ensures Accounted(owed + [openings], drained, openings + 1)
    ensures openings !in owed
  {
    assert multiset(owed)[openings] == 0;
  }

  lemma DrainOne(owed: seq<nat>, drained: seq<nat>, openings: nat)
    requires owed != [] && Accounted(owed, drained, openings)
    ensures Accounted(owed[1..], drained + [owed[0]], openings)
  {
    assert owed == [owed[0]] + owed[1..];
  }

  lemma BootKeepsConns(n: int, b: Boot, ok: bool)
    requires BootValid(b)
    requires Accounted(if b.start.UndoDrain? then b.start.rest else Pool(b), b.drained, b.openings)
    ensures var c := BootResumed(n, b, ok);
            && BootValid(c)
            && Accounted(if c.start.UndoDrain? then c.start.rest else Pool(c), c.drained, c.openings)
  {
    hide Accounted;
    if ok && (b.start.ConnectConsume? || b.start.ConnectPublish? || b.start.ConnectControl?) {
      OpenOne(Pool(b), b.drained, b.openings);
      assert Pool(BootResumed(n, b, ok)) == Pool(b) + [b.openings];
    } else if b.start.UndoPresence? && Pool(b) != [] {
      DrainOne(Pool(b), b.drained, b.openings);
    } else if b.start.UndoDrain? && b.start.rest != [] {
      DrainOne(b.start.rest, b.drained, b.openings);
    }
  }

  // ---- Sessions ----

  ghost predicate BookValid(k: Book) { SessionsValid(k) && ChannelsValid(k) }

  lemma FreshKeyWhenUnique(k: Book, a: Add)
    requires SessionsValid(k) && IsToken(a.agentId) && (a.toolOnly ==> a.epoch.Some?) && !IsDuplicate(k, a)
    ensures !HasKey(k.sessions, KeyOf(a.agentId, a.toolOnly, a.epoch))
  {
    if !a.toolOnly {
      forall i | 0 <= i < |k.sessions| && k.sessions[i].toolOnly ensures k.sessions[i].key != a.agentId {
        assert EntryValid(k, k.sessions[i]);
        assert ToolOnlyKey(k.sessions[i].agentId, k.sessions[i].epoch.value)[|k.sessions[i].agentId|] == '#';
      }
    }
  }

  lemma AddCalledKeeps(k: Book, up: bool, id: nat, agentId: string, toolOnly: bool, epoch: Option<int>)
    requires BookValid(k)
    ensures BookValid(AddCalled(k, up, id, agentId, toolOnly, epoch))
  {
    hide KeyOf, IsToken, HasOwning;
    var t := AddCalled(k, up, id, agentId, toolOnly, epoch);
    forall c <- t.startedChannels ensures Kept(t, c) { assert Kept(k, c); }
    forall i <- t.adds ensures AddValid(t, i) { if i in k.adds { assert AddValid(k, i); } }
  }

  lemma DecidedKeeps(k: Book, up: bool, id: nat, ok: bool)
    requires SessionsValid(k) && id in k.adds && !k.adds[id].stage.Settled?
    requires forall c <- k.startedChannels :: c == id || Kept(k, c)
    requires forall i <- k.adds :: AddValid(k, i)
    requires k.inflightAdds <= k.adds.Keys
    requires ok ==> IsToken(k.adds[id].agentId)
    ensures BookValid(AddDecided(k, up, id, ok))
  {
    var a, t := k.adds[id], AddDecided(k, up, id, ok);
    assert AddValid(k, id);
    if ok && up && !IsDuplicate(k, a) {
      FreshKeyWhenUnique(k, a);
      var x := Session(KeyOf(a.agentId, a.toolOnly, a.epoch), a.agentId, id, a.toolOnly, a.epoch);
      assert t.sessions == k.sessions + [x];
      assert t.sessions[|k.sessions|].channel == id;
    }
    assert k.sessions <= t.sessions;
    hide KeyOf, IsToken, HasOwning, First;
    forall c <- t.startedChannels ensures Kept(t, c) {
      if c != id {
        assert Kept(k, c);
        assert forall i | 0 <= i < |k.sessions| :: t.sessions[i] == k.sessions[i];
      }
    }
    forall i <- t.adds ensures AddValid(t, i) { assert AddValid(k, i); }
  }

  lemma AddResumedKeeps(k: Book, up: bool, id: nat, ok: bool)
    requires BookValid(k) && id in k.adds
    ensures BookValid(AddResumed(k, up, id, ok))
  {
    hide KeyOf, IsToken, HasOwning, AddDecided;
    var a, t := k.adds[id], AddResumed(k, up, id, ok);
    assert AddValid(k, id);
    forall c | c in k.startedChannels && c != id ensures Kept(ChannelStarted(k, id), c) { assert Kept(k, c); }
    forall i <- k.adds ensures AddValid(ChannelStarted(k, id), i) { assert AddValid(k, i); }
    if a.stage.Starting? && ok && IsToken(a.agentId) && a.epoch.None? {
      DecidedKeeps(ChannelStarted(k, id), up, id, true);
    } else if a.stage.Starting? && !(ok && IsToken(a.agentId)) {
      DecidedKeeps(k, up, id, false);
    } else if a.stage.Connecting? {
      DecidedKeeps(k, up, id, ok);
    } else {
      forall c <- t.startedChannels ensures Kept(t, c) { if c != id { assert Kept(k, c); } }
      forall i <- t.adds ensures AddValid(t, i) { assert AddValid(k, i); }
    }
  }

  lemma RemoveCalledKeeps(k: Book, id: nat, agentId: string, epoch: Option<int>)
    requires BookValid(k)
    ensures BookValid(RemoveCalled(k, id, agentId, epoch))
  {
    hide KeyOf, IsToken, FindSession, First;
    var t := RemoveCalled(k, id, agentId, epoch);
    if t != k {
      var i := FindSession(k.sessions, agentId, epoch).value;
      assert t.removals[id] == Removal(k.sessions[i].channel, false);
      forall c <- t.startedChannels ensures Kept(t, c) {
        assert Kept(k, c);
        if InMap(k, c) {
          var j :| 0 <= j < |k.sessions| && k.sessions[j].channel == c;
          if j < i { assert t.sessions[j].channel == c; }
          if j > i { assert t.sessions[j - 1].channel == c; }
        }
        if BeingRemoved(k, c) {
          var r :| r in k.removals && k.removals[r] == Removal(c, false);
          assert t.removals[r] == Removal(c, false);
        }
      }
      forall a <- t.adds ensures AddValid(t, a) { assert AddValid(k, a); }
      forall j | 0 <= j < |t.sessions| ensures EntryValid(t, t.sessions[j]) {
        assert EntryValid(k, k.sessions[if j < i then j else j + 1]);
      }
    }
  }

  // A channel whose stop has ended may be crossed off the pending removals, or off the map once all are.
  lemma StopNoted(k: Book, t: Book)
    requires BookValid(k) && SessionsValid(t)
    requires t.adds == k.adds && t.inflightAdds == k.inflightAdds && t.startedChannels == k.startedChannels
    requires k.stoppedChannels <= t.stoppedChannels
    requires forall c: nat | InMap(k, c) || BeingRemoved(k, c) :: InMap(t, c) || BeingRemoved(t, c) || c in t.stoppedChannels
    ensures BookValid(t)
  {
    hide SessionsValid, InMap, BeingRemoved;
    forall c <- t.startedChannels ensures Kept(t, c) { assert Kept(k, c); }
    forall a <- t.adds ensures AddValid(t, a) { assert AddValid(k, a); }
  }

  lemma RemoveResumedKeeps(k: Book, id: nat)
    requires BookValid(k) && id in k.removals
    ensures BookValid(RemoveResumed(k, id))
  {
    hide KeyOf, IsToken;
    var t := RemoveResumed(k, id);
    forall i | 0 <= i < |t.sessions| ensures EntryValid(t, t.sessions[i]) { assert EntryValid(k, k.sessions[i]); }
    forall c: nat | InMap(k, c) || BeingRemoved(k, c) ensures InMap(t, c) || BeingRemoved(t, c) || c in t.stoppedChannels {
      if BeingRemoved(k, c) {
        var r :| r in k.removals && k.removals[r] == Removal(c, false);
        if r != id { assert t.removals[r] == Removal(c, false); }
      }
    }
    StopNoted(k, t);
  }

  // ---- Stopping ----

  lemma StopDrainedKeeps(s: Core, rest: seq<nat>)
    requires BookValid(s.book) && s.book.sessions == [] && AddsSettled(s.book.adds, s.book.adds.Keys)
    requires BootValid(s.boot) && s.boot.start == NoStart && s.stopping && (rest != [] ==> s.boot.startPromise)
    requires Accounted(rest, s.boot.drained, s.boot.openings)
    ensures Inv(StopDrained(s, rest))
  {
    hide SessionsValid, ChannelsValid, Accounted;
    if rest != [] { DrainOne(rest, s.boot.drained, s.boot.openings); }
  }

  lemma NextSessionKeeps(s: Core, visited: set<nat>)
    requires Inv(s.(stop := StopPresence)) && PastAdds(s.stop) && !s.stop.DrainConns?
    requires visited <= s.book.stoppedChannels
    ensures Inv(NextSession(s, visited))
  {
    var k, t := s.book, s.book.(sessions := []);
    hide Accounted, KeyOf, IsToken;
    if First(k.sessions, (x: Session) => x.channel !in visited).None? {
      StopNoted(k, t);
      StopDrainedKeeps(s.(book := t), Pool(s.boot));
    }
  }

  lemma StopResumedKeeps(s: Core)
    requires Inv(s)
    ensures Inv(StopResumed(s))
  {
    hide Accounted, Pool, NextSession, StopDrained, KeyOf, IsToken;
    match s.stop
    case StopPresence => NextSessionKeeps(s, {});
    case StopSession(visited, current) =>
      var t := ChannelStopped(s.book, current);
      forall i | 0 <= i < |t.sessions| ensures EntryValid(t, t.sessions[i]) {
        assert EntryValid(s.book, s.book.sessions[i]);
      }
      StopNoted(s.book, t);
      NextSessionKeeps(s.(book := t), visited + {current});
    case DrainConns(rest) => StopDrainedKeeps(s, rest);
    case _ =>
  }

  lemma StopFactsKept(s: Core, k: Book)
    requires StopValid(s)
    requires s.book.stoppedChannels <= k.stoppedChannels && (s.stop.DrainConns? || s.stop.Stopped? ==> k.sessions == [])
    requires forall id <- k.adds :: k.adds[id].stage.Settled? || (id in s.book.adds && !s.book.adds[id].stage.Settled?)
    requires s.book.adds.Keys <= k.adds.Keys
    ensures StopValid(s.(book := k))
  {
    hide Pool;
  }

  lemma AddCalledTouches(s: Core, id: nat, agentId: string, toolOnly: bool, epoch: Option<int>)
    requires Inv(s)
    ensures StopValid(s.(book := AddCalled(s.book, CoreUp(s), id, agentId, toolOnly, epoch)))
  {
    hide Pool, HasOwning;
  }

  lemma AddResumedTouches(s: Core, id: nat, ok: bool)
    requires Inv(s) && id in s.book.adds
    ensures StopValid(s.(book := AddResumed(s.book, CoreUp(s), id, ok)))
  {
    hide Pool, HasOwning, HasKey, IsToken, KeyOf, SetEntry;
    var k := AddResumed(s.book, CoreUp(s), id, ok);
    StopFactsKept(s, k);
  }

  lemma StartCalledKeeps(s: Core)
    requires Inv(s)
    ensures Inv(StartCalled(s))
  {
    hide Accounted, SessionsValid, ChannelsValid;
  }

  lemma StopCalledKeeps(s: Core)
    requires Inv(s)
    ensures Inv(StopCalled(s))
  {
    hide Accounted, Pool, SessionsValid, Kept;
    forall id | id in s.book.adds && !s.book.adds[id].stage.Settled? ensures id in s.book.inflightAdds {
      assert AddValid(s.book, id);
    }
  }

  lemma BootIdle(n: int, b: Boot, ok: bool)
    requires b.start == NoStart
    ensures BootResumed(n, b, ok) == b
  {
  }

  lemma RemoveCalledTouches(k: Book, id: nat, agentId: string, epoch: Option<int>)
    ensures var t := RemoveCalled(k, id, agentId, epoch);
            && t.adds == k.adds && t.stoppedChannels == k.stoppedChannels && (k.sessions == [] ==> t.sessions == [])
  {
  }

  lemma NextKeepsInv(n: int, s: Core, e: Event)
    requires Inv(s)
    ensures Inv(Next(n, s, e))
  {
    hide Accounted, Pool, SessionsValid, ChannelsValid, AddResumed, RemoveCalled, BootResumed, StopResumed;
    match e
    case CallStart => StartCalledKeeps(s);
    case ResumeStart(ok) =>
      if s.boot.start == NoStart { BootIdle(n, s.boot, ok); } else { BootKeepsConns(n, s.boot, ok); }
    case CallAdd(id, agentId, toolOnly, epoch) =>
      AddCalledKeeps(s.book, CoreUp(s), id, agentId, toolOnly, epoch);
      AddCalledTouches(s, id, agentId, toolOnly, epoch);
    case ResumeAdd(id, ok) =>
      if id in s.book.adds {
        AddResumedKeeps(s.book, CoreUp(s), id, ok);
        AddResumedTouches(s, id, ok);
      }
    case CallRemove(id, agentId, epoch) =>
      RemoveCalledKeeps(s.book, id, agentId, epoch);
      RemoveCalledTouches(s.book, id, agentId, epoch);
      StopFactsKept(s, RemoveCalled(s.book, id, agentId, epoch));
    case ResumeRemove(id) =>
      if id in s.book.removals {
        RemoveResumedKeeps(s.book, id);
        StopFactsKept(s, RemoveResumed(s.book, id));
      }
    case CallStop => StopCalledKeeps(s);
    case ResumeStop => StopResumedKeeps(s);
  }

  lemma {:induction false} RunKeepsInv(n: int, es: seq<Event>)
    ensures Inv(Run(n, es))
  {
    if es != [] {
      RunKeepsInv(n, es[..|es| - 1]);
      NextKeepsInv(n, Run(n, es[..|es| - 1]), es[|es| - 1]);
    }
  }

  // ---- What holds in every run ----

  lemma OneOwnerPerAgent(n: int, es: seq<Event>, i: nat, j: nat)
    requires i < j < |Run(n, es).book.sessions|
    requires !Run(n, es).book.sessions[i].toolOnly && !Run(n, es).book.sessions[j].toolOnly
    ensures Run(n, es).book.sessions[i].agentId != Run(n, es).book.sessions[j].agentId
  {
    RunKeepsInv(n, es);
    var k := Run(n, es).book;
    assert EntryValid(k, k.sessions[i]) && EntryValid(k, k.sessions[j]);
  }

  lemma EveryStartedChannelIsKept(n: int, es: seq<Event>, c: nat)
    requires c in Run(n, es).book.startedChannels
    ensures Kept(Run(n, es).book, c)
  {
    RunKeepsInv(n, es);
  }

  lemma StoppingInsertsNothing(n: int, s: Core, e: Event)
    requires Inv(s) && s.stopping
    ensures Next(n, s, e).stopping
    ensures forall x | x in Next(n, s, e).book.sessions :: x in s.book.sessions
  {
    hide Pool, IsToken, KeyOf, HasOwning, HasKey, SetEntry, First, FindSession, BootResumed;
  }

  lemma {:induction false} StoppedStaysShut(n: int, es: seq<Event>, fs: seq<Event>)
    requires Run(n, es).stopping
    ensures Run(n, es + fs).stopping
    ensures forall x | x in Run(n, es + fs).book.sessions :: x in Run(n, es).book.sessions
  {
    if fs == [] {
      assert es + fs == es;
    } else {
      var gs := fs[..|fs| - 1];
      assert (es + fs)[..|es + fs| - 1] == es + gs;
      StoppedStaysShut(n, es, gs);
      RunKeepsInv(n, es + gs);
      StoppingInsertsNothing(n, Run(n, es + gs), fs[|fs| - 1]);
    }
  }

  lemma DecidedEvictsNothing(k: Book, up: bool, id: nat, x: Session)
    requires SessionsValid(k) && id in k.adds && x in k.sessions
    requires IsToken(k.adds[id].agentId) && (k.adds[id].toolOnly ==> k.adds[id].epoch.Some?)
    ensures x in AddDecided(k, up, id, true).sessions
  {
    var a := k.adds[id];
    if !IsDuplicate(k, a) { FreshKeyWhenUnique(k, a); }
  }

  lemma RemovalTakesTheNamed(k: Book, id: nat, agentId: string, epoch: Option<int>, x: Session)
    requires x in k.sessions && x !in RemoveCalled(k, id, agentId, epoch).sessions
    ensures (x.agentId == agentId || x.key == agentId) && (epoch.Some? ==> x.epoch == epoch)
  {
  }

  lemma StopTakesTheStopped(s: Core, x: Session)
    requires Inv(s) && x in s.book.sessions && x !in StopResumed(s).book.sessions
    ensures x.channel in StopResumed(s).book.stoppedChannels
  {
    hide Pool, IsToken, KeyOf, Accounted;
  }

  // A session leaves the map only through a removal of its own id and epoch, or at the end of stop().
  lemma SessionsLeaveByName(n: int, s: Core, e: Event, x: Session)
    requires Inv(s) && x in s.book.sessions && x !in Next(n, s, e).book.sessions
    ensures (e.CallRemove? && (x.agentId == e.agentId || x.key == e.agentId) && (e.epoch.Some? ==> x.epoch == e.epoch))
         || (e.ResumeStop? && x.channel in Next(n, s, e).book.stoppedChannels)
  {
    hide Pool, IsToken, KeyOf, BootResumed, RemoveCalled, StopResumed;
    match e
    case ResumeAdd(id, ok) =>
      if id in s.book.adds && x !in AddResumed(s.book, CoreUp(s), id, ok).sessions {
        assert AddValid(s.book, id);
        DecidedEvictsNothing(s.book, CoreUp(s), id, x);
        DecidedEvictsNothing(ChannelStarted(s.book, id), CoreUp(s), id, x);
        assert false;
      }
    case CallRemove(id, agentId, epoch) => RemovalTakesTheNamed(s.book, id, agentId, epoch, x);
    case ResumeStop => StopTakesTheStopped(s, x);
    case _ =>
  }

  // An add whose awaits went well settles ok exactly when the core is up and its id (or its tool-only
  // key) is still free; then its session is in the map, under its key.
  lemma AddSettlesOkExactly(k: Book, up: bool, id: nat, ok: bool)
    requires BookValid(k) && id in k.adds && !k.adds[id].stage.Settled? && IsToken(k.adds[id].agentId)
    ensures var a, t := k.adds[id], AddDecided(k, up, id, ok);
            var x := Session(KeyOf(a.agentId, a.toolOnly, a.epoch), a.agentId, id, a.toolOnly, a.epoch);
            if ok && up && !(if a.toolOnly then HasKey(k.sessions, x.key) else HasOwning(k.sessions, a.agentId))
            then t.adds[id].stage == Settled(true) && t.sessions == k.sessions + [x]
            else t.adds[id].stage == RollingBack && t.sessions == k.sessions
  {
    var a := k.adds[id];
    assert AddValid(k, id);
    if ok && up && !IsDuplicate(k, a) { FreshKeyWhenUnique(k, a); }
  }

  // While one session has the agent and the epoch, a removal that carries them takes out that one.
  lemma RemovalFindsItsOwn(k: Book, id: nat, agentId: string, epoch: int, i: nat)
    requires id !in k.removals && i < |k.sessions|
    requires k.sessions[i].agentId == agentId && k.sessions[i].epoch == Some(epoch)
    requires forall j | 0 <= j < |k.sessions| && k.sessions[j].agentId == agentId && k.sessions[j].epoch == Some(epoch) :: j == i
    ensures var t := RemoveCalled(k, id, agentId, Some(epoch));
            t.sessions == RemoveAt(k.sessions, i) && t.removals[id] == Removal(k.sessions[i].channel, false)
  {
    var found := FindSession(k.sessions, agentId, Some(epoch));
    assert found.Some?;
  }

  // The lookup by epoch has already done what the compare after it is for.
  lemma EpochCompareNeverRefuses(sessions: seq<Session>, agentId: string, epoch: Option<int>)
    ensures var i := FindSession(sessions, agentId, epoch);
            i.Some? ==> !StaleEpoch(sessions[i.value], epoch)
  {
  }

  lemma RemovalRespectsEpoch(n: int, s: Core, id: nat, agentId: string, epoch: int)
    ensures var k, t := s.book, Next(n, s, CallRemove(id, agentId, Some(epoch))).book;
            || t.sessions == k.sessions
            || exists i | 0 <= i < |k.sessions| ::
                 t.sessions == RemoveAt(k.sessions, i) && k.sessions[i].agentId == agentId && k.sessions[i].epoch == Some(epoch)
  {
  }

  lemma StoppedHasReleasedAll(n: int, es: seq<Event>)
    requires Run(n, es).stop.Stopped?
    ensures var s := Run(n, es);
            && s.book.sessions == [] && !s.boot.started && Pool(s.boot) == []
            && (forall c: nat :: multiset(s.boot.drained)[c] == if c < s.boot.openings then 1 else 0)
            && AddsSettled(s.book.adds, s.book.adds.Keys)
            && ((forall r <- s.book.removals :: s.book.removals[r].settled) ==>
                  s.book.startedChannels <= s.book.stoppedChannels)
  {
    RunKeepsInv(n, es);
    var s := Run(n, es);
    forall c <- s.book.startedChannels ensures c in s.book.stoppedChannels || BeingRemoved(s.book, c) {
      assert Kept(s.book, c);
    }
  }

  lemma FailedStartHasDrainedAll(n: int, es: seq<Event>)
    requires !Run(n, es).boot.startPromise
    ensures var b := Run(n, es).boot;
            && Pool(b) == [] && !b.started
            && forall c: nat :: multiset(b.drained)[c] == if c < b.openings then 1 else 0
  {
    RunKeepsInv(n, es);
  }

  // k awaits of _doStop, one after the other.
  function StopSteps(s: Core, k: nat): Core
    decreases k
  {
    if k == 0 then s else StopSteps(StopResumed(s), k - 1)
  }

  function StopRank(stop: StopStage): nat {
    match stop
    case NoStop => 5
    case AwaitStart => 4
    case AwaitAdds(_) => 3
    case StopPresence => 2
    case StopSession(_, _) => 1
    case _ => 0
  }

  // The channels of the map that the session loop has not reached, and the drains not yet issued.
  function StopWork(s: Core): nat {
    match s.stop
    case StopSession(visited, current) =>
      |set x | x in s.book.sessions && x.channel !in visited && x.channel != current :: x.channel|
    case DrainConns(rest) => |rest| + 1
    case _ => 0
  }

  lemma SmallerSet(a: set<nat>, b: set<nat>)
    requires a < b
    ensures |a| < |b|
  {
    assert b == a + (b - a);
  }

  lemma NextSessionAdvances(s: Core)
    requires s.stop.StopSession? && StopResumed(s).stop.StopSession?
    ensures StopWork(StopResumed(s)) < StopWork(s)
  {
    hide Pool;
    var t := StopResumed(s);
    var was := set x | x in s.book.sessions && x.channel !in s.stop.visited && x.channel != s.stop.current :: x.channel;
    var now := set x | x in s.book.sessions && x.channel !in t.stop.visited && x.channel != t.stop.current :: x.channel;
    assert t.stop.current in was && t.stop.current !in now && now <= was;
    SmallerSet(now, was);
  }

  lemma StopResumedAdvances(s: Core)
    requires Inv(s) && s.stopping && !s.stop.Stopped?
    requires s.boot.start == NoStart && AddsSettled(s.book.adds, s.book.adds.Keys)
    ensures var t := StopResumed(s);
            && t.stopping && t.boot.start == NoStart && AddsSettled(t.book.adds, t.book.adds.Keys)
            && (StopRank(t.stop) < StopRank(s.stop) || (StopRank(t.stop) == StopRank(s.stop) && StopWork(t) < StopWork(s)))
  {
    hide Pool, IsToken, KeyOf, Accounted, SessionsValid, ChannelsValid;
    if s.stop.StopSession? && StopResumed(s).stop.StopSession? {
      NextSessionAdvances(s);
      hide StopWork;
    }
  }

  // Once the pending start and adds have settled, stop() comes to its end.
  lemma {:induction false} StopFinishes(s: Core) returns (k: nat)
    requires Inv(s) && s.stopping && s.boot.start == NoStart && AddsSettled(s.book.adds, s.book.adds.Keys)
    ensures StopSteps(s, k).stop.Stopped?
    decreases StopRank(s.stop), StopWork(s)
  {
    if s.stop.Stopped? {
      k := 0;
    } else {
      StopResumedAdvances(s);
      StopResumedKeeps(s);
      k := StopFinishes(StopResumed(s));
      k := k + 1;
    }
  }

  class A2ACore {
    const natsPoolSize: int

    var started: bool
    var stopping: bool
    var startPromise: bool
    var nc: Option<nat>
    var ncPublish: Option<nat>
    var ncControl: Option<nat>
    var redis: bool
    var sessions: seq<Session>
    var inflightAdds: set<nat>

    // Where the calls in progress are, and what the connections and channels went through.
    var start: StartStage
    var stop: StopStage
    var adds: map<nat, Add>
    var removals: map<nat, Removal>
    var openings: nat
    var drained: seq<nat>
    ghost var startedChannels: set<nat>
    ghost var stoppedChannels: set<nat>

    ghost function Now(): Core
      reads this
    {
      Core(Boot(started, startPromise, start, nc, ncPublish, ncControl, redis, openings, drained), stopping, stop,
           Book(sessions, adds, inflightAdds, removals, startedChannels, stoppedChannels))
    }

    constructor (natsPoolSize: int)
      ensures Now() == Fresh && this.natsPoolSize == natsPoolSize
    {
      this.natsPoolSize := natsPoolSize;
      started, stopping, startPromise, redis := false, false, false, false;
      nc, ncPublish, ncControl := None, None, None;
      sessions, inflightAdds, adds, removals := [], {}, map[], map[];
      start, stop, openings, drained := NoStart, NoStop, 0, [];
      startedChannels, stoppedChannels := {}, {};
    }

    method HasOwningSession(agentId: string) returns (found: bool)
      ensures found <==> HasOwning(sessions, agentId)
    {
      for i := 0 to |sessions|
        invariant forall j | 0 <= j < i :: !(sessions[j].agentId == agentId && !sessions[j].toolOnly)
      {
        if sessions[i].agentId == agentId && !sessions[i].toolOnly { return true; }
      }
      return false;
    }

    method Search(p: Session -> bool) returns (r: Option<nat>)
      ensures r == First(sessions, p)
    {
      for i := 0 to |sessions|
        invariant forall j | 0 <= j < i :: !p(sessions[j])
      {
        if p(sessions[i]) { return Some(i); }
      }
      return None;
    }

    method Find(agentId: string, epoch: Option<int>) returns (r: Option<nat>)
      ensures r == FindSession(sessions, agentId, epoch)
    {
      if epoch.Some? {
        r := Search((x: Session) => x.agentId == agentId && x.epoch == epoch);
      } else {
        r := Search((x: Session) => x.key == agentId);
        if r.None? { r := Search((x: Session) => x.agentId == agentId); }
      }
    }

    method Start()
      modifies this
      ensures Now() == Next(natsPoolSize, old(Now()), CallStart)
    {
      if stop != NoStop || started { return; }
      if !startPromise { startPromise, start := true, ConnectConsume; }
    }

    method DistinctPool() returns (conns: seq<nat>)
      ensures conns == Pool(Now().boot)
    {
      conns := [];
      if nc.Some? { conns := conns + [nc.value]; }
      if ncPublish.Some? && ncPublish.value !in conns { conns := conns + [ncPublish.value]; }
      if ncControl.Some? && ncControl.value !in conns { conns := conns + [ncControl.value]; }
    }

    method ClearPool()
      modifies this`nc, this`ncPublish, this`ncControl, this`redis
      ensures Now().boot == PoolCleared(old(Now().boot))
    {
      nc, ncPublish, ncControl, redis := None, None, None, false;
    }

    // The drain loop of the catch block in _doStart, up to its next await or its end.
    method UndoNext(rest: seq<nat>)
      modifies this
      ensures Now() == old(Now()).(boot := BootDrained(old(Now()).boot, rest))
    {
      if rest == [] {
        ClearPool();
        startPromise, start := false, NoStart;
      } else {
        drained, start := drained + [rest[0]], UndoDrain(rest[1..]);
      }
    }

    method ContinueStart(ok: bool)
      modifies this
      ensures Now() == Next(natsPoolSize, old(Now()), ResumeStart(ok))
    {
      hide Pool, BootDrained;
      match start
      case NoStart =>
      case UndoPresence => var conns := DistinctPool(); UndoNext(conns);
      case UndoDrain(rest) => UndoNext(rest);
      case _ => if ok { StageSucceeds(); } else { start := UndoPresence; }
    }

    method ConsumeConnected()
      requires start.ConnectConsume?
      modifies this`nc, this`ncPublish, this`ncControl, this`redis, this`openings, this`start
      ensures Now().boot == StageDone(natsPoolSize, old(Now()).boot)
    {
      nc, openings := Some(openings), openings + 1;
      if natsPoolSize >= 2 {
        start := ConnectPublish;
      } else {
        ncPublish, ncControl, redis, start := nc, nc, true, ClaimPresence;
      }
    }

    method PublishConnected()
      requires start.ConnectPublish?
      modifies this`ncPublish, this`ncControl, this`redis, this`openings, this`start
      ensures Now().boot == StageDone(natsPoolSize, old(Now()).boot)
    {
      ncPublish, openings := Some(openings), openings + 1;
      if natsPoolSize >= 3 {
        start := ConnectControl;
      } else {
        ncControl, redis, start := ncPublish, true, ClaimPresence;
      }
    }

    method StageSucceeds()
      modifies this`nc, this`ncPublish, this`ncControl, this`redis, this`openings, this`start, this`started
      ensures Now().boot == StageDone(natsPoolSize, old(Now()).boot)
    {
      match start
      case ConnectConsume => ConsumeConnected();
      case ConnectPublish => PublishConnected();
      case ConnectControl => ncControl, openings, redis, start := Some(openings), openings + 1, true, ClaimPresence;
      case ClaimPresence => start := LoadSigner;
      case LoadSigner => started, start := true, NoStart;
      case _ =>
    }

    // addSession and addUdsSession up to the channel's start; id names the call.
    method AddSession(id: nat, agentId: string, toolOnly: bool, epoch: Option<int>)
      requires id !in adds && (toolOnly ==> epoch.Some?)
      modifies this
      ensures Now() == Next(natsPoolSize, old(Now()), CallAdd(id, agentId, toolOnly, epoch))
    {
      if !started || stopping || nc.None? || !redis {
        adds := adds[id := Add(agentId, toolOnly, epoch, Settled(false))];
        return;
      }
      if !toolOnly {
        var owned := HasOwningSession(agentId);
        if owned {
          adds := adds[id := Add(agentId, toolOnly, epoch, Settled(false))];
          return;
        }
      }
      adds, inflightAdds := adds[id := Add(agentId, toolOnly, epoch, Starting)], inflightAdds + {id};
    }

    // The re-check after the awaits.
    method DecideAdd(id: nat, ok: bool)
      requires id in adds
      modifies this
      ensures Now() == old(Now()).(book := AddDecided(old(Now()).book, CoreUp(old(Now())), id, ok))
    {
      var a := adds[id];
      var key := KeyOf(a.agentId, a.toolOnly, a.epoch);
      var taken := Search((x: Session) => x.key == key);
      var duplicate := taken.Some?;
      if !a.toolOnly { duplicate := HasOwningSession(a.agentId); }
      if !ok || stopping || !started || nc.None? || !redis || duplicate {
        adds := adds[id := a.(stage := RollingBack)];
        return;
      }
      var x := Session(key, a.agentId, id, a.toolOnly, a.epoch);
      sessions := if taken.Some? then sessions[taken.value := x] else sessions + [x];
      adds := adds[id := a.(stage := Settled(true))];
    }

    method ContinueAdd(id: nat, ok: bool)
      requires id in adds
      modifies this
      ensures Now() == Next(natsPoolSize, old(Now()), ResumeAdd(id, ok))
    {
      var a := adds[id];
      match a.stage
      case Starting =>
        if !ok || !IsToken(a.agentId) {
          DecideAdd(id, false);
          return;
        }
        startedChannels := startedChannels + {id};
        if a.epoch.Some? {
          adds := adds[id := a.(stage := Connecting)];
        } else {
          DecideAdd(id, true);
        }
      case Connecting => DecideAdd(id, ok);
      case RollingBack =>
        stoppedChannels := stoppedChannels + {id};
        adds := adds[id := a.(stage := Settled(false))];
      case Settled(_) => inflightAdds := inflightAdds - {id};
    }

    method RemoveSession(id: nat, agentId: string, epoch: Option<int>) returns (found: bool)
      requires id !in removals
      modifies this
      ensures Now() == Next(natsPoolSize, old(Now()), CallRemove(id, agentId, epoch))
      ensures found <==> id in removals
    {
      var i := Find(agentId, epoch);
      if i.None? { return false; }
      var x := sessions[i.value];
      if epoch.Some? && x.epoch.Some? && x.epoch != epoch { return false; }
      sessions := sessions[..i.value] + sessions[i.value + 1..];
      removals := removals[id := Removal(x.channel, false)];
      return true;
    }

    method ContinueRemove(id: nat)
      requires id in removals
      modifies this
      ensures Now() == Next(natsPoolSize, old(Now()), ResumeRemove(id))
    {
      stoppedChannels := stoppedChannels + {removals[id].channel};
      removals := removals[id := removals[id].(settled := true)];
    }

    method Stop()
      modifies this
      ensures Now() == Next(natsPoolSize, old(Now()), CallStop)
    {
      if stop != NoStop { return; }
      stopping := true;
      if startPromise { stop := AwaitStart; } else { AwaitInflightAdds(); }
    }

    method AwaitInflightAdds()
      modifies this`stop
      ensures Now() == AddsAwaited(old(Now()))
    {
      stop := if inflightAdds != {} then AwaitAdds(inflightAdds) else StopPresence;
    }

    method DrainNext(rest: seq<nat>)
      modifies this
      ensures Now() == StopDrained(old(Now()), rest)
    {
      if rest == [] {
        ClearPool();
        started, stop := false, Stopped;
      } else {
        drained, stop := drained + [rest[0]], DrainConns(rest[1..]);
      }
    }

    method VisitNext(visited: set<nat>)
      modifies this
      ensures Now() == NextSession(old(Now()), visited)
    {
      var i := Search((x: Session) => x.channel !in visited);
      if i.Some? {
        stop := StopSession(visited, sessions[i.value].channel);
      } else {
        sessions := [];
        var conns := DistinctPool();
        DrainNext(conns);
      }
    }

    method ContinueStop()
      modifies this
      ensures Now() == Next(natsPoolSize, old(Now()), ResumeStop)
    {
      match stop
      case NoStop =>
      case AwaitStart => if start == NoStart { AwaitInflightAdds(); }
      case AwaitAdds(snapshot) => if AddsSettled(adds, snapshot) { stop := StopPresence; }
      case StopPresence => VisitNext({});
      case StopSession(visited, current) =>
        stoppedChannels := stoppedChannels + {current};
        VisitNext(visited + {current});
      case DrainConns(rest) => DrainNext(rest);
      case Stopped =>
    }
  }
}
