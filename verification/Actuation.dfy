/** The whole actuation stack as one transition system: the hold, the rules
    engine, manual and cloud commands, LoRa downlinks, the breaker interlock
    and the auto-off timers, all on the same four coils. Relay writes
    succeed here. */
module Actuation {
  import opened Relay
  import Rules
  import RuleRuns
  import opened IrrigationHold
  import opened HoldHistory
  import opened HoldReadings

  datatype System = System(plant: Plant, rules: Rules.State)

  datatype Event =
    | RulesEvaluated(x: Rules.Inputs, drops: seq<int>, sweep: seq<int>)
    | SensorsSuspended(sensors: set<string>)
    | RulesLoaded(rules: seq<Rules.Rule>, policies: Rules.Policies)
    | DownlinkReceived(fport: int, payload: seq<nat>, now: int)
    | RelaySet(channel: int, state: bool, duration: int, now: int)
    | InterlockWritten(state: bool, now: int)
    | TimerThread(ch: Channel, id: nat)
    | HoldConfigured(cfg: HoldConfig, now: int)
    | HoldEvaluated(reading: map<Column, Sample>, suspended: set<string>, known: bool, now: int)

  ghost predicate Happens(s: System, e: Event) {
    e.RulesEvaluated? ==>
      e.x.reserved == s.plant.hold.Reserved() && RuleRuns.Ordered(s.rules, e.x, e.drops, e.sweep)
  }

  /** The command handler: refused on the hold's channel, or when malformed. */
  function Commanded(p: Plant, channel: int, state: bool, duration: int, now: int): Coils {
    if !(1 <= channel <= 4) || p.hold.Owns(channel) || duration < 0 then p.coils
    else
      var c := p.coils.Set(channel, state, false, now);
      if state then c.ArmAutoOff(channel, duration, now) else c
  }

  /** The breaker writes its relay whether or not the hold is enabled. */
  function Interlocked(p: Plant, state: bool, now: int): Coils {
    var ch := p.hold.cfg.interlockRelay;
    if 1 <= ch <= 4 then p.coils.Set(ch, state, false, now) else p.coils
  }

  function Next(s: System, e: Event): System {
    match e
    case RulesEvaluated(x, drops, sweep) =>
      if !RuleRuns.WellShaped(s.rules, x) then s else
      var q := Rules.Evaluated(s.rules, x, drops, sweep);
      System(s.plant.(coils := Rules.IssueAll(s.plant.coils, q.actions, q.durations, x.now)), q.st)
    case SensorsSuspended(sensors) => s.(rules := Rules.Suspend(s.rules, sensors))
    case RulesLoaded(rules, policies) => s.(rules := s.rules.(rules := rules, policies := policies))
    case DownlinkReceived(fport, payload, now) =>
      var (st, c) := Rules.Downlink(s.rules, s.plant.coils, Rules.ParseDownlink(fport, payload),
                                    s.plant.hold.Reserved(), now);
      System(s.plant.(coils := c), st)
    case RelaySet(channel, state, duration, now) =>
      s.(plant := s.plant.(coils := Commanded(s.plant, channel, state, duration, now)))
    case InterlockWritten(state, now) => s.(plant := s.plant.(coils := Interlocked(s.plant, state, now)))
    case TimerThread(ch, id) => s.(plant := s.plant.(coils := s.plant.coils.Fire(ch, id)))
    case HoldConfigured(cfg, now) => s.(plant := Configure(s.plant, cfg, now, true, true))
    case HoldEvaluated(_, _, _, _) =>
      var x := Sighted(s.plant.hold.lastSuspended, e);
      var c := CycleOf(s.plant.hold.cfg, x.reading, x.suspended, x.now);
      s.(plant := Evaluate(s.plant, c, x.suspended, true, true))
  }

  /** What a cycle has to go by: when the monitor threw, the suspensions it
      last told of. */
  function Sighted(last: set<string>, e: Event): Seen
    requires e.HoldEvaluated?
  {
    Seen(e.reading, if e.known then e.suspended else last, e.now)
  }

  function Run(s: System, es: seq<Event>): System
    decreases |es|
  {
    if es == [] then s else Next(Run(s, es[..|es| - 1]), es[|es| - 1])
  }

  ghost predicate Possible(s: System, es: seq<Event>)
    decreases |es|
  {
    es == [] || (Possible(s, es[..|es| - 1]) && Happens(Run(s, es[..|es| - 1]), es[|es| - 1]))
  }

  // ---- Ownership ----------------------------------------------------------------

  /** While the hold is armed its coil is on exactly when the hold drives it and
      carries no timer; while it is not, it drives nothing. */
  ghost predicate Owned(s: System) { OwnedPlant(s.plant) }

  ghost predicate OwnedPlant(p: Plant) {
    var h, c := p.hold, p.coils;
    && c.Ok()
    && (h.cfg.Armed() ==> h.cfg.relay !in c.armed && (h.cfg.relay in c.on <==> h.driven))
    && (h.driven ==> h.cfg.Armed() && h.drivenChannel == h.cfg.relay)
    && (!h.driven ==> h.drivenChannel == 0)
    && (!h.cfg.Armed() ==> h.logic == RELEASED)
  }

  lemma {:induction false} IssueElsewhere(c: Coils, actions: seq<Rules.Action>, durations: map<int, int>, now: int,
                                          ch: Channel)
    requires c.Ok() && forall i :: 0 <= i < |actions| ==> actions[i].relay != ch
    ensures Rules.IssueAll(c, actions, durations, now).Ok()
    ensures SameAt(c, Rules.IssueAll(c, actions, durations, now), ch)
    decreases |actions|
  {
    if actions != [] {
      var n := |actions| - 1;
      IssueElsewhere(c, actions[..n], durations, now, ch);
      IssueKeepsOk(Rules.IssueAll(c, actions[..n], durations, now), actions[n], durations, now);
    }
  }

  lemma IssueKeepsOk(c: Coils, a: Rules.Action, durations: map<int, int>, now: int)
    requires c.Ok()
    ensures Rules.Issue(c, a, durations, now).Ok()
    ensures forall ch: Channel :: ch != a.relay ==> SameAt(c, Rules.Issue(c, a, durations, now), ch)
  {
    if 1 <= a.relay <= 4 {
      WritesKeepOff(c, a.relay, a.on, if a.relay in durations then durations[a.relay] else 0, now);
    }
  }

  /** A write, and a duration granted after it, on one channel. */
  lemma SetKeepsOk(c: Coils, ch: Channel, state: bool, unbounded: bool, now: int)
    requires c.Ok()
    ensures c.Set(ch, state, unbounded, now).Ok()
    ensures forall d: Channel :: d != ch ==> SameAt(c, c.Set(ch, state, unbounded, now), d)
  {}

  lemma ArmKeepsOk(c: Coils, ch: Channel, duration: int, now: int)
    requires c.Ok()
    ensures c.ArmAutoOff(ch, duration, now).Ok()
    ensures forall d: Channel :: d != ch ==> SameAt(c, c.ArmAutoOff(ch, duration, now), d)
  {}

  lemma {:induction false} IssueAllKeepsOk(c: Coils, actions: seq<Rules.Action>, durations: map<int, int>, now: int)
    requires c.Ok()
    ensures Rules.IssueAll(c, actions, durations, now).Ok()
    decreases |actions|
  {
    if actions != [] {
      var n := |actions| - 1;
      IssueAllKeepsOk(c, actions[..n], durations, now);
      IssueKeepsOk(Rules.IssueAll(c, actions[..n], durations, now), actions[n], durations, now);
    }
  }

  predicate HoldEvent(e: Event) { e.HoldConfigured? || e.HoldEvaluated? }

  /** No rule, fail-safe drop, expired duration, downlink, command, interlock
      write or timer thread, live or stale, touches an owned channel. */
  lemma OthersKeepOff(s: System, e: Event)
    requires Owned(s) && Happens(s, e) && !HoldEvent(e)
    ensures Next(s, e).plant.hold == s.plant.hold && Next(s, e).plant.coils.Ok()
    ensures s.plant.hold.cfg.Armed() ==> SameAt(s.plant.coils, Next(s, e).plant.coils, s.plant.hold.cfg.relay)
  {
    var p, c := s.plant, s.plant.coils;
    match e
    case RulesEvaluated(x, drops, sweep) => RulesKeepOff(s, x, drops, sweep);
    case SensorsSuspended(_) =>
    case RulesLoaded(_, _) =>
    case DownlinkReceived(fport, payload, now) =>
      DownlinkKeepsOff(s, Rules.ParseDownlink(fport, payload), now);
    case RelaySet(channel, state, duration, now) =>
      if 1 <= channel <= 4 { WritesKeepOff(c, channel, state, duration, now); }
    case InterlockWritten(state, now) =>
      if 1 <= p.hold.cfg.interlockRelay <= 4 { WritesKeepOff(c, p.hold.cfg.interlockRelay, state, 0, now); }
    case TimerThread(ch, id) =>
      FireKeepsOff(c, ch, id);
  }

  lemma FireKeepsOff(c: Coils, ch: Channel, id: nat)
    requires c.Ok()
    ensures c.Fire(ch, id).Ok()
    ensures forall d: Channel :: d !in c.armed ==> SameAt(c, c.Fire(ch, id), d)
  {}

  lemma WritesKeepOff(c: Coils, ch: Channel, state: bool, duration: int, now: int)
    requires c.Ok()
    ensures c.Set(ch, state, false, now).Ok() && c.Set(ch, state, false, now).ArmAutoOff(ch, duration, now).Ok()
    ensures forall d: Channel :: d != ch ==>
      SameAt(c, c.Set(ch, state, false, now), d) &&
      SameAt(c, c.Set(ch, state, false, now).ArmAutoOff(ch, duration, now), d)
  {
    SetKeepsOk(c, ch, state, false, now);
    ArmKeepsOk(c.Set(ch, state, false, now), ch, duration, now);
  }

  lemma RulesKeepOff(s: System, x: Rules.Inputs, drops: seq<int>, sweep: seq<int>)
    requires Owned(s) && Happens(s, RulesEvaluated(x, drops, sweep))
    ensures var c := Next(s, RulesEvaluated(x, drops, sweep)).plant.coils;
      c.Ok() && (s.plant.hold.cfg.Armed() ==> SameAt(s.plant.coils, c, s.plant.hold.cfg.relay))
  {
    var q := Rules.Evaluated(s.rules, x, drops, sweep);
    IssueAllKeepsOk(s.plant.coils, q.actions, q.durations, x.now);
    if s.plant.hold.cfg.Armed() {
      RuleRuns.LetsGoFirst(s.rules, x, drops, sweep, s.plant.hold.cfg.relay);
      IssueElsewhere(s.plant.coils, q.actions, q.durations, x.now, s.plant.hold.cfg.relay);
    }
  }

  lemma DownlinkKeepsOff(s: System, cmd: Rules.Command, now: int)
    requires Owned(s)
    ensures var c := Rules.Downlink(s.rules, s.plant.coils, cmd, s.plant.hold.Reserved(), now).1;
      c.Ok() && (s.plant.hold.cfg.Armed() ==> SameAt(s.plant.coils, c, s.plant.hold.cfg.relay))
  {
    if cmd.Command? {
      WritesKeepOff(s.plant.coils, cmd.channel, cmd.state, cmd.duration, now);
    }
  }

  /** A good write by the hold leaves its coil where it says, without a
      timer. */
  lemma DriveOwned(p: Plant, on: bool, now: int)
    requires p.coils.Ok() && 1 <= DriveChannel(p.hold, on) <= 4
    ensures var q := Drive(p, on, now, true); var ch := DriveChannel(p.hold, on);
      q.coils.Ok() && ch !in q.coils.armed && (ch in q.coils.on <==> on) &&
      q.hold == p.hold.(driven := on, drivenChannel := if on then ch else 0)
  {}

  lemma ConfiguredOwned(p: Plant, cfg: HoldConfig, now: int)
    requires OwnedPlant(p)
    ensures OwnedPlant(Configure(p, cfg, now, true, true))
  {
    var p0 := p.(hold := p.hold.(cfg := cfg, configured := true));
    var letGo := p0.hold.driven && (!cfg.Armed() || cfg.relay != p0.hold.drivenChannel);
    if letGo {
      DriveOwned(p0, false, now);
    }
    var p1 := if letGo then Drive(p0, false, now, true) else p0;
    var p2 := p1.(hold := p1.hold.(logic := RELEASED));
    if cfg.Armed() {
      DriveOwned(p2, false, now);
    }
  }

  lemma ConfigureOwned(s: System, cfg: HoldConfig, now: int)
    requires Owned(s)
    ensures Owned(Next(s, HoldConfigured(cfg, now)))
  {
    ConfiguredOwned(s.plant, cfg, now);
  }

  lemma JudgedOwned(p: Plant, c: Cycle, suspended: set<string>)
    requires OwnedPlant(p)
    ensures var q := Evaluate(p, c, suspended, true, true);
      OwnedPlant(q) && q.hold.cfg == p.hold.cfg && q.hold.configured == p.hold.configured &&
      q.hold.lastSuspended == suspended &&
      (p.hold.cfg.Armed() ==> q.hold.driven == q.hold.logic.holding && q.hold.logic == Judge(p.hold.cfg, p.hold.logic, c))
  {}

  lemma EvaluateOwned(s: System, e: Event)
    requires Owned(s) && e.HoldEvaluated?
    ensures var t := Next(s, e); var x := Sighted(s.plant.hold.lastSuspended, e);
      Owned(t) && t.plant.hold.cfg == s.plant.hold.cfg && t.plant.hold.configured == s.plant.hold.configured &&
      t.plant.hold.lastSuspended == x.suspended &&
      (s.plant.hold.cfg.Armed() ==>
        t.plant.hold.driven == t.plant.hold.logic.holding &&
        t.plant.hold.logic == Judge(s.plant.hold.cfg, s.plant.hold.logic,
                                    CycleOf(s.plant.hold.cfg, x.reading, x.suspended, x.now)))
  {
    var x := Sighted(s.plant.hold.lastSuspended, e);
    JudgedOwned(s.plant, CycleOf(s.plant.hold.cfg, x.reading, x.suspended, x.now), x.suspended);
  }

  lemma StepOwned(s: System, e: Event)
    requires Owned(s) && Happens(s, e)
    ensures Owned(Next(s, e))
  {
    if e.HoldConfigured? {
      ConfigureOwned(s, e.cfg, e.now);
    } else if e.HoldEvaluated? {
      EvaluateOwned(s, e);
    } else {
      OthersKeepOff(s, e);
    }
  }

  /** Ownership holds in every state any interleaving can reach. */
  lemma {:induction false} AlwaysOwned(s: System, es: seq<Event>)
    requires Owned(s) && Possible(s, es)
    ensures Owned(Run(s, es))
    decreases |es|
  {
    if es != [] {
      var n := |es| - 1;
      AlwaysOwned(s, es[..n]);
      StepOwned(Run(s, es[..n]), es[n]);
    }
  }

  /** And so from start-up, with an engine not yet configured. */
  lemma OwnedFromBoot(coils: Coils, rules: Rules.State, es: seq<Event>)
    requires coils.Ok() && Possible(System(Plant(FRESH, coils), rules), es)
    ensures Owned(Run(System(Plant(FRESH, coils), rules), es))
  {
    AlwaysOwned(System(Plant(FRESH, coils), rules), es);
  }

  /** In every reachable state with the hold driven: the coil is on, no timer
      is armed on it, and the next event switches it off only if it is the
      hold's own evaluation or a reconfiguration. */
  lemma OnlyTheHoldLetsGo(s: System, es: seq<Event>, e: Event)
    requires Owned(s) && Possible(s, es) && Happens(Run(s, es), e) && Run(s, es).plant.hold.driven
    ensures var t := Run(s, es);
      var ch := t.plant.hold.drivenChannel;
      1 <= ch <= 4 && ch in t.plant.coils.on && ch !in t.plant.coils.armed &&
      (ch !in Next(t, e).plant.coils.on ==> HoldEvent(e))
  {
    var t := Run(s, es);
    AlwaysOwned(s, es);
    if !HoldEvent(e) {
      OthersKeepOff(t, e);
    }
  }

  // ---- Everything else is obeyed ------------------------------------------------

  /** The settings in force give the channel to the hold. */
  predicate HoldsChannel(h: Hold, ch: int) {
    h.cfg.enabled && 1 <= h.cfg.relay <= 4 && h.cfg.relay != h.cfg.interlockRelay && ch == h.cfg.relay
  }

  /** A relay command is refused, without a trace, exactly on a channel that
      is none, one the hold has, or with a negative duration; otherwise it is
      obeyed. */
  lemma CommandObeyed(s: System, channel: int, state: bool, duration: int, now: int)
    ensures var t := Next(s, RelaySet(channel, state, duration, now));
      t == s.(plant := s.plant.(coils := t.plant.coils)) &&
      (if 1 <= channel <= 4 && !HoldsChannel(s.plant.hold, channel) && duration >= 0
       then Obeyed(s.plant.coils, t.plant.coils, channel, state, duration, now)
       else t == s)
  {
    if 1 <= channel <= 4 {
      WriteObeyed(s.plant.coils, channel, state, duration, now);
    }
  }

  /** The breaker's write always lands on its own relay. */
  lemma InterlockObeyed(s: System, state: bool, now: int)
    ensures var t := Next(s, InterlockWritten(state, now)); var ch := s.plant.hold.cfg.interlockRelay;
      t == s.(plant := s.plant.(coils := t.plant.coils)) &&
      (if 1 <= ch <= 4 then Obeyed(s.plant.coils, t.plant.coils, ch, state, 0, now) else t == s)
  {
    var ch := s.plant.hold.cfg.interlockRelay;
    if 1 <= ch <= 4 {
      WriteObeyed(s.plant.coils, ch, state, 0, now);
    }
  }

  /** The seconds a downlink's third and fourth byte ask for. */
  function Asked(payload: seq<nat>): nat {
    if |payload| >= 4 then 256 * payload[2] + payload[3] else 0
  }

  /** A downlink on port 100 whose first byte is a channel and second a state
      is obeyed unless the hold has the channel; the rules engine remembers a
      bounded ON. Anything else changes nothing. */
  lemma DownlinkObeyed(s: System, fport: int, payload: seq<nat>, now: int)
    ensures var t := Next(s, DownlinkReceived(fport, payload, now));
      if fport == 100 && |payload| >= 2 && 1 <= payload[0] <= 4 && !HoldsChannel(s.plant.hold, payload[0]) then
        var ch, state := payload[0], payload[1] != 0;
        Obeyed(s.plant.coils, t.plant.coils, ch, state, if state then Asked(payload) else 0, now) &&
        t.plant.hold == s.plant.hold &&
        t.rules == s.rules.(timers := if state && Asked(payload) > 0 then s.rules.timers[ch := now + Asked(payload)]
                                      else s.rules.timers)
      else t == s
  {
    var cmd := Rules.ParseDownlink(fport, payload);
    if cmd.Command? {
      WriteObeyed(s.plant.coils, cmd.channel, cmd.state, cmd.duration, now);
    }
  }

  // ---- The contact follows the history -----------------------------------------------

  /** The suspensions the monitor last told of. */
  function Told(last: set<string>, es: seq<Event>): set<string>
    decreases |es|
  {
    if es == [] then last
    else
      var e, before := es[|es| - 1], Told(last, es[..|es| - 1]);
      if e.HoldEvaluated? then Sighted(before, e).suspended else before
  }

  /** What the hold's cycles had to go by. */
  function SeenIn(last: set<string>, es: seq<Event>): seq<Seen>
    decreases |es|
  {
    if es == [] then []
    else
      var e, prior := es[|es| - 1], es[..|es| - 1];
      SeenIn(last, prior) + if e.HoldEvaluated? then [Sighted(Told(last, prior), e)] else []
  }

  /** Reloads that change nothing the hold depends on. */
  predicate SameSettings(es: seq<Event>, cfg: HoldConfig) {
    forall i :: 0 <= i < |es| && es[i].HoldConfigured? ==> es[i].cfg == cfg
  }

  lemma {:induction false} LogicFollows(s: System, es: seq<Event>)
    requires Owned(s) && JustTaken(s.plant.hold) && Possible(s, es) && SameSettings(es, s.plant.hold.cfg)
    ensures var t := Run(s, es); var last := s.plant.hold.lastSuspended;
      Owned(t) && t.plant.hold.cfg == s.plant.hold.cfg && t.plant.hold.configured &&
      t.plant.hold.lastSuspended == Told(last, es) &&
      t.plant.hold.logic == After(s.plant.hold.cfg, CyclesOf(s.plant.hold.cfg, SeenIn(last, es)))
    decreases |es|
  {
    if es != [] {
      var n, cfg, last := |es| - 1, s.plant.hold.cfg, s.plant.hold.lastSuspended;
      LogicFollows(s, es[..n]);
      LogicStep(Run(s, es[..n]), es[n]);
      if es[n].HoldEvaluated? {
        var h := CyclesOf(cfg, SeenIn(last, es));
        assert h[..|h| - 1] == CyclesOf(cfg, SeenIn(last, es[..n]));
      } else {
        assert SeenIn(last, es) == SeenIn(last, es[..n]);
      }
    }
  }

  /** An armed hold whose conditions are counted afresh. */
  predicate JustTaken(h: Hold) { h.cfg.Armed() && h.configured && h.logic == RELEASED }

  lemma LogicStep(m: System, e: Event)
    requires Owned(m) && Happens(m, e) && m.plant.hold.cfg.Armed() && m.plant.hold.configured
    requires e.HoldConfigured? ==> e.cfg == m.plant.hold.cfg
    ensures var t := Next(m, e); var h := m.plant.hold;
      Owned(t) && t.plant.hold.cfg == h.cfg && t.plant.hold.configured &&
      if e.HoldEvaluated? then
        var x := Sighted(h.lastSuspended, e);
        t.plant.hold.lastSuspended == x.suspended &&
        t.plant.hold.logic == Judge(h.cfg, h.logic, CycleOf(h.cfg, x.reading, x.suspended, x.now))
      else t.plant.hold == h
  {
    StepOwned(m, e);
    if e.HoldEvaluated? {
      EvaluateOwned(m, e);
    } else if !e.HoldConfigured? {
      OthersKeepOff(m, e);
    }
  }

  /** Taking a channel over starts it released: coil off, no timer, and the
      conditions counted afresh. */
  lemma TakeOverStartsReleased(s: System, cfg: HoldConfig, now: int)
    requires Owned(s) && cfg.Armed() && (!s.plant.hold.cfg.Armed() || cfg.relay != s.plant.hold.cfg.relay)
    ensures var t := Next(s, HoldConfigured(cfg, now));
      Owned(t) && t.plant.hold.cfg == cfg && JustTaken(t.plant.hold) &&
      cfg.relay !in t.plant.coils.on && cfg.relay !in t.plant.coils.armed
  {}

  /** After a cycle the coil is where the logic wants it. */
  lemma CoilFollows(s: System, es: seq<Event>)
    requires Owned(s) && JustTaken(s.plant.hold) && Possible(s, es) && SameSettings(es, s.plant.hold.cfg)
    requires es != [] && es[|es| - 1].HoldEvaluated?
    ensures s.plant.hold.cfg.relay in Run(s, es).plant.coils.on <==>
      After(s.plant.hold.cfg, CyclesOf(s.plant.hold.cfg, SeenIn(s.plant.hold.lastSuspended, es))).holding
  {
    var n := |es| - 1;
    LogicFollows(s, es);
    LogicFollows(s, es[..n]);
    EvaluateOwned(Run(s, es[..n]), es[n]);
  }

  lemma CoilFollowsSettings(t: System, settings: Settings, es: seq<Event>)
    requires Owned(t) && JustTaken(t.plant.hold) && t.plant.hold.cfg == FromSettings(settings)
    requires Possible(t, es) && SameSettings(es, FromSettings(settings)) && es != [] && es[|es| - 1].HoldEvaluated?
    ensures settings.relay in Run(t, es).plant.coils.on <==> Held(settings, SeenIn(t.plant.hold.lastSuspended, es))
  {
    CoilFollows(t, es);
    HoldingIffHeld(settings, SeenIn(t.plant.hold.lastSuspended, es));
  }

  /** Settings give the hold a channel it did not have. */
  lemma SettingsTaken(s: System, settings: Settings, at: int)
    requires Owned(s) && !HoldsChannel(s.plant.hold, settings.relay)
    requires settings.enabled && 1 <= settings.relay <= 4 && settings.relay != settings.interlockRelay
    ensures var t := Next(s, HoldConfigured(FromSettings(settings), at));
      Owned(t) && JustTaken(t.plant.hold) && t.plant.hold.cfg == FromSettings(settings) &&
      t.plant.hold.lastSuspended == s.plant.hold.lastSuspended
  {
    TakeOverStartsReleased(s, FromSettings(settings), at);
  }

  /** End to end: from the moment settings give the hold a channel it did not
      have, whatever everything else on the unit does in between, the coil
      after each sampling cycle is on exactly when those settings and the
      readings since ask for the irrigation to be held. */
  lemma ContactFollowsHistory(s: System, settings: Settings, at: int, t: System, es: seq<Event>)
    requires Owned(s) && !HoldsChannel(s.plant.hold, settings.relay)
    requires settings.enabled && 1 <= settings.relay <= 4 && settings.relay != settings.interlockRelay
    requires t == Next(s, HoldConfigured(FromSettings(settings), at))
    requires Possible(t, es) && SameSettings(es, FromSettings(settings)) && es != [] && es[|es| - 1].HoldEvaluated?
    ensures settings.relay in Run(t, es).plant.coils.on <==> Held(settings, SeenIn(s.plant.hold.lastSuspended, es))
  {
    SettingsTaken(s, settings, at);
    CoilFollowsSettings(t, settings, es);
  }

  /** Settings that give it no channel leave it without one: no cycle moves a
      coil. */
  lemma WithoutChannel(s: System, settings: Settings, e: Event)
    requires Owned(s) && s.plant.hold.cfg == FromSettings(settings) && e.HoldEvaluated?
    requires !(settings.enabled && 1 <= settings.relay <= 4 && settings.relay != settings.interlockRelay)
    ensures Next(s, e).plant.coils == s.plant.coils && !Next(s, e).plant.hold.driven
  {}
}
