// The build-routing governor of codex_routing_governor.ts: hysteresis latches on the pressure
// signals and a circuit breaker per provider. Instants are in milliseconds.
module Governor {
  import opened JsText
  import opened Wrappers

  datatype Provider = Claude | Codex
  datatype Target = To(provider: Provider) | Queue
  datatype Fit = CodexStrong | ClaudeStrong | Either
  datatype Outcome = Ok | Shed | Status429

  datatype Task = Task(role: Option<string>, fit: Option<Fit>, touchesProtectedPaths: bool, peakCritical: bool)

  datatype Signals = Signals(now: real, peakWindow: bool, anthropic429Rate: real, codexBudgetPct: real, codexSecondaryHigh: bool)

  datatype Breaker = Breaker(consecutiveSheds: nat, consecutive429s: nat, consecutiveFailures: nat, openUntil: real)

  const EmptyBreaker := Breaker(0, 0, 0, 0.0)

  datatype State = State(lastTarget: Option<Target>, anthropic429High: Option<bool>, codexBudgetHigh: Option<bool>,
                         claude: Breaker, codex: Breaker, lastNow: Option<real>)

  const Fresh := State(None, None, None, EmptyBreaker, EmptyBreaker, None)

  datatype Cfg = Cfg(anthropic429Hi: real, anthropic429Lo: real, codexBudgetHi: real, codexBudgetLo: real,
                     breakerConsecutiveFailures: int, breakerCooldownMs: real, claudeReserveRoles: seq<string>)

  // ---- Latches, breakers and roles ----

  function Latched(current: Option<bool>, value: real, hi: real, lo: real, hiInclusive: bool): bool {
    if current == Some(true) then !(value <= lo) else if hiInclusive then value >= hi else value > hi
  }

  function BreakerOf(s: State, p: Provider): Breaker { if p == Claude then s.claude else s.codex }

  function WithBreaker(s: State, p: Provider, b: Breaker): State {
    if p == Claude then s.(claude := b) else s.(codex := b)
  }

  predicate Open(b: Breaker, now: real) { b.openUntil > now }

  // A breaker whose cooldown has run out is closed as it is looked at.
  function Checked(b: Breaker, now: real): Breaker {
    if !Open(b, now) && b.openUntil != 0.0 then b.(openUntil := 0.0) else b
  }

  function NormalizeRole(role: Option<string>): string { ToLowerCase(Trim(if role.Some? then role.value else "")) }

  function ReserveRoles(roles: seq<string>): seq<string> {
    if roles == [] then []
    else (if NormalizeRole(Some(roles[0])) == "" then [] else [NormalizeRole(Some(roles[0]))]) + ReserveRoles(roles[1..])
  }

  predicate IsClaudeReserveRole(role: Option<string>, c: Cfg) {
    NormalizeRole(role) != "" && NormalizeRole(role) in ReserveRoles(c.claudeReserveRoles)
  }

  // ---- routeBuild ----

  datatype Pressure = Pressure(claudeOpen: bool, codexOpen: bool, claude: bool, codex: bool)

  // before is the state the breakers are looked at in, seen the one with the latches updated.
  function PressureOf(before: State, seen: State, g: Signals): Pressure {
    var claudeOpen, codexOpen := Open(before.claude, g.now), Open(before.codex, g.now);
    Pressure(claudeOpen, codexOpen, claudeOpen || seen.anthropic429High == Some(true),
             codexOpen || seen.codexBudgetHigh == Some(true) || g.codexSecondaryHigh)
  }

  function Select(p: Pressure, target: Target, reason: string, hardClaude: bool): (Target, string) {
    if target == To(Codex) && p.codex then
      (if p.claude then Queue else To(Claude), reason + if p.codexOpen then ":codex-breaker-open" else ":codex-pressured")
    else if target == To(Claude) && p.claudeOpen then
      (if hardClaude || p.codex then Queue else To(Codex), reason + ":claude-breaker-open")
    else (target, reason)
  }

  // The state as routeBuild has updated it before it selects.
  function Observed(s: State, g: Signals, c: Cfg): State {
    s.(lastNow := Some(g.now),
       anthropic429High := Some(Latched(s.anthropic429High, g.anthropic429Rate, c.anthropic429Hi, c.anthropic429Lo, false)),
       codexBudgetHigh := Some(Latched(s.codexBudgetHigh, g.codexBudgetPct, c.codexBudgetHi, c.codexBudgetLo, true)),
       claude := Checked(s.claude, g.now), codex := Checked(s.codex, g.now))
  }

  function Chosen(t: Task, g: Signals, p: Pressure, s: State, c: Cfg): (Target, string) {
    if IsClaudeReserveRole(t.role, c) then Select(p, To(Claude), "reserved-role-claude", true)
    else if t.touchesProtectedPaths then Select(p, To(Claude), "protected-path-human-review", true)
    else if p.claude && p.codex then Select(p, Queue, "both-pressured", false)
    else if g.peakWindow && !t.peakCritical then Select(p, To(Codex), "peak-noncritical-spillover", false)
    else if s.anthropic429High == Some(true) then Select(p, To(Codex), "anthropic-429-high", false)
    else if s.codexBudgetHigh == Some(true) || g.codexSecondaryHigh then
      Select(p, To(Claude), if g.codexSecondaryHigh then "codex-secondary-high" else "codex-budget-high", false)
    else if t.fit == Some(CodexStrong) then Select(p, To(Codex), "fit-codex-strong", false)
    else if t.fit == Some(ClaudeStrong) then Select(p, To(Claude), "fit-claude-strong", false)
    else Select(p, To(Claude), "default-claude", false)
  }

  function Routed(t: Task, g: Signals, s: State, c: Cfg): (State, Target, string) {
    var seen := Observed(s, g, c);
    var (target, reason) := Chosen(t, g, PressureOf(s, seen, g), seen, c);
    (seen.(lastTarget := Some(target)), target, reason)
  }

  // ---- recordOutcome ----

  function Failed(b: Breaker, outcome: Outcome, c: Cfg, now: real): Breaker {
    var n := b.consecutiveFailures + 1;
    Breaker(if outcome == Shed then b.consecutiveSheds + 1 else 0, if outcome == Shed then 0 else b.consecutive429s + 1, n,
            if n >= c.breakerConsecutiveFailures then now + c.breakerCooldownMs else b.openUntil)
  }

  function Recorded(s: State, p: Provider, outcome: Outcome, c: Cfg, now: real): State {
    var b := BreakerOf(s, p);
    WithBreaker(s.(lastNow := Some(now)), p, if outcome == Outcome.Ok then EmptyBreaker else Failed(b, outcome, c, now))
  }

  // ---- One decision ----

  // A provider whose breaker is open is never selected, and Codex not while it is under pressure at all.
  lemma OpenBreakerIsNotSelected(t: Task, g: Signals, s: State, c: Cfg)
    ensures var target := Routed(t, g, s, c).1;
            && (target.To? ==> !Open(BreakerOf(s, target.provider), g.now))
            && (target == To(Codex) ==>
                  !g.codexSecondaryHigh && Routed(t, g, s, c).0.codexBudgetHigh == Some(false))
  {
  }

  // The role is one of the reserved ones, but for white space around them and the case of their letters.
  ghost predicate Reserved(role: Option<string>, roles: seq<string>) {
    role.Some? && !Blank(role.value) && exists i | 0 <= i < |roles| :: Agree(role.value, roles[i])
  }

  lemma {:induction false} ReserveRolesAre(roles: seq<string>, r: string)
    ensures r in ReserveRoles(roles) <==> r != "" && exists i | 0 <= i < |roles| :: ToLowerCase(Trim(roles[i])) == r
  {
    hide Trim, ToLowerCase;
    if roles != [] {
      ReserveRolesAre(roles[1..], r);
      assert forall i | 1 <= i < |roles| :: roles[i] == roles[1..][i - 1];
    }
  }

  lemma ReserveRoleIff(role: Option<string>, c: Cfg)
    ensures IsClaudeReserveRole(role, c) <==> Reserved(role, c.claudeReserveRoles)
  {
    var text := if role.Some? then role.value else "";
    var roles := c.claudeReserveRoles;
    ReserveRolesAre(roles, NormalizeRole(role));
    BlankIsNothing(text);
    forall i | 0 <= i < |roles| ensures ToLowerCase(Trim(roles[i])) == NormalizeRole(role) <==> Agree(text, roles[i]) {
      NormalizedEqualIffAgree(text, roles[i]);
    }
    hide Trim, ToLowerCase, Agree;
  }

  // Reserved roles and protected paths go to Claude, or wait exactly while its breaker is open.
  lemma ReservedNeverGoesToCodex(t: Task, g: Signals, s: State, c: Cfg)
    requires Reserved(t.role, c.claudeReserveRoles) || t.touchesProtectedPaths
    ensures Routed(t, g, s, c).1 == if Open(s.claude, g.now) then Queue else To(Claude)
  {
    ReserveRoleIff(t.role, c);
    hide IsClaudeReserveRole;
  }

  // A provider is under pressure while its breaker is open or its latched signal high.
  predicate ClaudePressed(s: State, g: Signals, c: Cfg) {
    Open(s.claude, g.now) || Observed(s, g, c).anthropic429High == Some(true)
  }

  predicate CodexPressed(s: State, g: Signals, c: Cfg) {
    Open(s.codex, g.now) || Observed(s, g, c).codexBudgetHigh == Some(true) || g.codexSecondaryHigh
  }

  // Who is under pressure decides, and only when neither provider is do the peak window and the fit.
  lemma PressureDecides(t: Task, g: Signals, s: State, c: Cfg)
    requires !Reserved(t.role, c.claudeReserveRoles) && !t.touchesProtectedPaths
    ensures var claude, codex, target := ClaudePressed(s, g, c), CodexPressed(s, g, c), Routed(t, g, s, c).1;
            && (claude && codex ==> target == Queue)
            && (claude && !codex ==> target == To(Codex))
            && (!claude && codex ==> target == To(Claude))
            && (!claude && !codex ==>
                  target == if (g.peakWindow && !t.peakCritical) || t.fit == Some(CodexStrong) then To(Codex) else To(Claude))
  {
    ReserveRoleIff(t.role, c);
    hide IsClaudeReserveRole;
  }

  // What a rule asks for, and its name; the first whose condition holds applies.
  datatype Rule = Rule(applies: bool, target: Target, name: string)

  ghost function Rules(t: Task, g: Signals, s: State, c: Cfg): seq<Rule> {
    var seen := Observed(s, g, c);
    [Rule(Reserved(t.role, c.claudeReserveRoles), To(Claude), "reserved-role-claude"),
     Rule(t.touchesProtectedPaths, To(Claude), "protected-path-human-review"),
     Rule(ClaudePressed(s, g, c) && CodexPressed(s, g, c), Queue, "both-pressured"),
     Rule(g.peakWindow && !t.peakCritical, To(Codex), "peak-noncritical-spillover"),
     Rule(seen.anthropic429High == Some(true), To(Codex), "anthropic-429-high"),
     Rule(g.codexSecondaryHigh, To(Claude), "codex-secondary-high"),
     Rule(seen.codexBudgetHigh == Some(true), To(Claude), "codex-budget-high"),
     Rule(t.fit == Some(CodexStrong), To(Codex), "fit-codex-strong"),
     Rule(t.fit == Some(ClaudeStrong), To(Claude), "fit-claude-strong"),
     Rule(true, To(Claude), "default-claude")]
  }

  // The reason given is the name of the first rule that applies, alone exactly when that rule's target
  // is the one returned; otherwise with what stood against it.
  lemma ReasonNamesTheRule(t: Task, g: Signals, s: State, c: Cfg, i: nat)
    requires var rules := Rules(t, g, s, c);
             i < |rules| && rules[i].applies && forall j | 0 <= j < i :: !rules[j].applies
    ensures var (_, target, reason) := Routed(t, g, s, c);
            var rule := Rules(t, g, s, c)[i];
            if target == rule.target then reason == rule.name
            else
              reason == rule.name + (if rule.target == To(Claude) then ":claude-breaker-open"
                                     else if Open(s.codex, g.now) then ":codex-breaker-open" else ":codex-pressured")
  {
    ReserveRoleIff(t.role, c);
    hide IsClaudeReserveRole, Reserved, Latched;
    var rules := Rules(t, g, s, c);
    assert i > 0 ==> !rules[0].applies;
    assert i > 1 ==> !rules[1].applies;
    assert i > 2 ==> !rules[2].applies;
    assert i > 3 ==> !rules[3].applies;
    assert i > 4 ==> !rules[4].applies;
    assert i > 5 ==> !rules[5].applies;
    assert i > 6 ==> !rules[6].applies;
    assert i > 7 ==> !rules[7].applies;
    assert i > 8 ==> !rules[8].applies;
  }

  // ---- Latches ----

  // A latch flips only when its signal is beyond the far side of the band.
  lemma LatchFlipsOnTheFarSide(current: Option<bool>, value: real, hi: real, lo: real, hiInclusive: bool)
    ensures var was, after := current == Some(true), Latched(current, value, hi, lo, hiInclusive);
            && (was && !after <==> was && value <= lo)
            && (!was && after <==> !was && (value > hi || (hiInclusive && value == hi)))
  {
  }

  // The same signal twice leaves a latch where it is for every signal exactly when the band is not
  // crossed; otherwise some signal flips it at every call.
  lemma LatchIsStableIffBandIsNotCrossed(hi: real, lo: real, hiInclusive: bool)
    ensures (forall value: real, current: Option<bool> ::
               Latched(Some(Latched(current, value, hi, lo, hiInclusive)), value, hi, lo, hiInclusive) ==
               Latched(current, value, hi, lo, hiInclusive))
            <==> if hiInclusive then lo < hi else lo <= hi
  {
    if !(if hiInclusive then lo < hi else lo <= hi) {
      var value, current := lo, Some(true);
      assert Latched(Some(Latched(current, value, hi, lo, hiInclusive)), value, hi, lo, hiInclusive) !=
             Latched(current, value, hi, lo, hiInclusive);
    }
  }

  // ---- Whole runs ----

  datatype Event = Route(task: Task, signals: Signals) | Record(provider: Provider, outcome: Outcome, now: real)

  function TimeOf(e: Event): real { if e.Route? then e.signals.now else e.now }

  // log holds the events so far.
  datatype Governor = Governor(state: State, clock: real, log: seq<Event>)

  // The clock does not go back: an event that is earlier than the one before is no step of a run.
  function Next(c: Cfg, s: Governor, e: Event): Governor {
    if TimeOf(e) < s.clock then s
    else
      Governor(if e.Route? then Routed(e.task, e.signals, s.state, c).0 else Recorded(s.state, e.provider, e.outcome, c, e.now),
               TimeOf(e), s.log + [e])
  }

  function Run(c: Cfg, start: real, es: seq<Event>): Governor {
    if es == [] then Governor(Fresh, start, []) else Next(c, Run(c, start, es[..|es| - 1]), es[|es| - 1])
  }

  // The failures of a provider since its last ok, and when the last of them was.
  function Streak(log: seq<Event>, p: Provider): nat {
    if log == [] then 0
    else
      var e := log[|log| - 1];
      if e.Record? && e.provider == p then if e.outcome == Outcome.Ok then 0 else Streak(log[..|log| - 1], p) + 1
      else Streak(log[..|log| - 1], p)
  }

  function LastFailure(log: seq<Event>, p: Provider): real {
    if log == [] then 0.0
    else
      var e := log[|log| - 1];
      if e.Record? && e.provider == p && e.outcome != Outcome.Ok then e.now else LastFailure(log[..|log| - 1], p)
  }

  // On which side of its band a signal last was; it starts on the low side.
  function Anthropic429WasHigh(log: seq<Event>, c: Cfg): bool {
    if log == [] then false
    else
      var e := log[|log| - 1];
      if e.Route? && e.signals.anthropic429Rate > c.anthropic429Hi then true
      else if e.Route? && e.signals.anthropic429Rate <= c.anthropic429Lo then false
      else Anthropic429WasHigh(log[..|log| - 1], c)
  }

  function CodexBudgetWasHigh(log: seq<Event>, c: Cfg): bool {
    if log == [] then false
    else
      var e := log[|log| - 1];
      if e.Route? && e.signals.codexBudgetPct >= c.codexBudgetHi then true
      else if e.Route? && e.signals.codexBudgetPct <= c.codexBudgetLo then false
      else CodexBudgetWasHigh(log[..|log| - 1], c)
  }

  predicate Tripped(c: Cfg, log: seq<Event>, p: Provider) {
    Streak(log, p) >= 1 && Streak(log, p) >= c.breakerConsecutiveFailures
  }

  ghost predicate BreakerValid(c: Cfg, s: Governor, p: Provider) {
    var b := BreakerOf(s.state, p);
    var until := LastFailure(s.log, p) + c.breakerCooldownMs;
    && b.consecutiveFailures == Streak(s.log, p)
    && if Tripped(c, s.log, p) then b.openUntil == until || (b.openUntil == 0.0 && s.clock >= until)
       else b.openUntil == 0.0
  }

  lemma NextKeepsBreaker(c: Cfg, s: Governor, e: Event, p: Provider)
    requires BreakerValid(c, s, p)
    ensures BreakerValid(c, Next(c, s, e), p)
  {
    if TimeOf(e) >= s.clock { assert (s.log + [e])[..|s.log|] == s.log; }
    hide Chosen, Latched;
  }

  lemma {:induction false} RunKeepsBreaker(c: Cfg, start: real, es: seq<Event>, p: Provider)
    ensures BreakerValid(c, Run(c, start, es), p) && Run(c, start, es).clock >= start
  {
    if es != [] {
      RunKeepsBreaker(c, start, es[..|es| - 1], p);
      NextKeepsBreaker(c, Run(c, start, es[..|es| - 1]), es[|es| - 1], p);
    }
  }

  // A breaker is open exactly when the failures since the last ok have reached the threshold and the
  // last of them is less than a cooldown ago. So one failure more after the cooldown reopens it.
  lemma OpenIffRecentStreak(c: Cfg, start: real, es: seq<Event>, p: Provider, now: real)
    requires 0.0 <= start && Run(c, start, es).clock <= now
    ensures var s := Run(c, start, es);
            Open(BreakerOf(s.state, p), now) <==>
            Tripped(c, s.log, p) && now < LastFailure(s.log, p) + c.breakerCooldownMs
  {
    RunKeepsBreaker(c, start, es, p);
  }

  lemma TrippedProviderIsNotSelected(c: Cfg, start: real, es: seq<Event>, p: Provider, t: Task, g: Signals)
    requires 0.0 <= start && Run(c, start, es).clock <= g.now
    requires var log := Run(c, start, es).log;
             Tripped(c, log, p) && g.now < LastFailure(log, p) + c.breakerCooldownMs
    ensures Routed(t, g, Run(c, start, es).state, c).1 != To(p)
  {
    OpenIffRecentStreak(c, start, es, p, g.now);
    OpenBreakerIsNotSelected(t, g, Run(c, start, es).state, c);
  }

  // With bands that are not crossed, each latch is on the side where its signal last left the band.
  lemma {:induction false} LatchesRememberTheLastExcursion(c: Cfg, start: real, es: seq<Event>)
    requires c.anthropic429Lo <= c.anthropic429Hi && c.codexBudgetLo < c.codexBudgetHi
    ensures var s := Run(c, start, es);
            && (s.state.anthropic429High == Some(true) <==> Anthropic429WasHigh(s.log, c))
            && (s.state.codexBudgetHigh == Some(true) <==> CodexBudgetWasHigh(s.log, c))
  {
    if es != [] {
      var s, e := Run(c, start, es[..|es| - 1]), es[|es| - 1];
      LatchesRememberTheLastExcursion(c, start, es[..|es| - 1]);
      if TimeOf(e) >= s.clock { assert (s.log + [e])[..|s.log|] == s.log; }
      hide Chosen;
    }
  }

  // The state remembers the instant of the last event, by which an outcome recorded without one is
  // dated, and the target of the last decision.
  lemma StateRemembersTheLast(c: Cfg, start: real, es: seq<Event>, e: Event)
    requires TimeOf(e) >= Run(c, start, es).clock
    ensures var s, t := Run(c, start, es).state, Next(c, Run(c, start, es), e).state;
            && t.lastNow == Some(TimeOf(e))
            && t.lastTarget == (if e.Route? then Some(Routed(e.task, e.signals, s, c).1) else s.lastTarget)
  {
    hide Chosen, Latched, Run;
  }

  class GovernorState {
    var lastTarget: Option<Target>
    var anthropic429High: Option<bool>
    var codexBudgetHigh: Option<bool>
    var claude: Breaker
    var codex: Breaker
    var lastNow: Option<real>

    ghost function Now(): State
      reads this
    {
      State(lastTarget, anthropic429High, codexBudgetHigh, claude, codex, lastNow)
    }

    constructor ()
      ensures Now() == Fresh
    {
      lastTarget, anthropic429High, codexBudgetHigh, lastNow := None, None, None, None;
      claude, codex := EmptyBreaker, EmptyBreaker;
    }

    method BreakerOpen(p: Provider, now: real) returns (isOpen: bool)
      modifies this`claude, this`codex
      ensures Now() == WithBreaker(old(Now()), p, Checked(BreakerOf(old(Now()), p), now))
      ensures isOpen <==> Open(BreakerOf(old(Now()), p), now)
    {
      var b := if p == Claude then claude else codex;
      if b.openUntil > now { return true; }
      if b.openUntil != 0.0 {
        if p == Claude { claude := b.(openUntil := 0.0); } else { codex := b.(openUntil := 0.0); }
      }
      return false;
    }

    method RouteBuild(task: Task, signals: Signals, c: Cfg) returns (target: Target, reason: string)
      modifies this
      ensures (Now(), target, reason) == Routed(task, signals, old(Now()), c)
    {
      lastNow := Some(signals.now);
      anthropic429High := Some(Latched(anthropic429High, signals.anthropic429Rate, c.anthropic429Hi, c.anthropic429Lo, false));
      codexBudgetHigh := Some(Latched(codexBudgetHigh, signals.codexBudgetPct, c.codexBudgetHi, c.codexBudgetLo, true));
      var claudeOpen := BreakerOpen(Claude, signals.now);
      var codexOpen := BreakerOpen(Codex, signals.now);
      var p := Pressure(claudeOpen, codexOpen, claudeOpen || anthropic429High == Some(true),
                        codexOpen || codexBudgetHigh == Some(true) || signals.codexSecondaryHigh);
      var picked: (Target, string);
      if IsClaudeReserveRole(task.role, c) {
        picked := Select(p, To(Claude), "reserved-role-claude", true);
      } else if task.touchesProtectedPaths {
        picked := Select(p, To(Claude), "protected-path-human-review", true);
      } else if p.claude && p.codex {
        picked := Select(p, Queue, "both-pressured", false);
      } else if signals.peakWindow && !task.peakCritical {
        picked := Select(p, To(Codex), "peak-noncritical-spillover", false);
      } else if anthropic429High == Some(true) {
        picked := Select(p, To(Codex), "anthropic-429-high", false);
      } else if codexBudgetHigh == Some(true) || signals.codexSecondaryHigh {
        var signal := if signals.codexSecondaryHigh then "codex-secondary-high" else "codex-budget-high";
        picked := Select(p, To(Claude), signal, false);
      } else if task.fit == Some(CodexStrong) {
        picked := Select(p, To(Codex), "fit-codex-strong", false);
      } else if task.fit == Some(ClaudeStrong) {
        picked := Select(p, To(Claude), "fit-claude-strong", false);
      } else {
        picked := Select(p, To(Claude), "default-claude", false);
      }
      lastTarget := Some(picked.0);
      return picked.0, picked.1;
    }

    method RecordOutcome(p: Provider, outcome: Outcome, c: Cfg, now: real)
      modifies this
      ensures Now() == Recorded(old(Now()), p, outcome, c, now)
    {
      lastNow := Some(now);
      var b := if p == Claude then claude else codex;
      if outcome == Outcome.Ok {
        b := EmptyBreaker;
      } else {
        var n := b.consecutiveFailures + 1;
        b := b.(consecutiveFailures := n);
        if outcome == Shed {
          b := b.(consecutiveSheds := b.consecutiveSheds + 1, consecutive429s := 0);
        } else {
          b := b.(consecutive429s := b.consecutive429s + 1, consecutiveSheds := 0);
        }
        if n >= c.breakerConsecutiveFailures { b := b.(openUntil := now + c.breakerCooldownMs); }
      }
      if p == Claude { claude := b; } else { codex := b; }
    }
  }
}
