/** The hold together with relay writes that may fail. */
module HoldPlant {
  import opened Relay
  import opened IrrigationHold
  import opened HoldHistory

  /** One sampling cycle: what was seen, and which relay writes succeed. */
  datatype Sampling = Sampling(cycle: Cycle, suspended: set<string>, w1: bool, w2: bool)

  function Sampled(p: Plant, steps: seq<Sampling>): Plant
    decreases |steps|
  {
    if steps == [] then p
    else
      var q, s := Sampled(p, steps[..|steps| - 1]), steps[|steps| - 1];
      Evaluate(q, s.cycle, s.suspended, s.w1, s.w2)
  }

  function Cycles(steps: seq<Sampling>): (h: History)
    ensures |h| == |steps|
    ensures forall i :: 0 <= i < |h| ==> h[i] == steps[i].cycle
  {
    seq(|steps|, i requires 0 <= i < |steps| => steps[i].cycle)
  }

  /** Whatever relay writes fail, the logical state is a function of what was
      seen: it holds exactly when the history since arming says so. */
  lemma {:induction false} HeldIffHistory(p: Plant, steps: seq<Sampling>)
    requires p.hold.cfg.Armed() && p.hold.cfg.tripSamples >= 1 && p.hold.logic == RELEASED
    ensures Sampled(p, steps).hold.cfg == p.hold.cfg
    ensures Sampled(p, steps).hold.logic == After(p.hold.cfg, Cycles(steps))
    ensures Sampled(p, steps).hold.logic.holding <==> HistoryHolds(p.hold.cfg, Cycles(steps))
    decreases |steps|
  {
    if steps != [] {
      var prior := steps[..|steps| - 1];
      HeldIffHistory(p, prior);
      var h := Cycles(steps);
      assert h[..|h| - 1] == Cycles(prior);
    }
    HoldingIffHistory(p.hold.cfg, Cycles(steps));
  }

  /** The physical fields make sense, whatever failed before. */
  predicate Sane(p: Plant) {
    if p.hold.driven then 1 <= p.hold.drivenChannel <= 4 && p.hold.drivenChannel in p.coils.on
    else p.hold.drivenChannel == 0
  }

  lemma SaneKept(p: Plant, cfg: HoldConfig, s: Sampling, now: int)
    requires Sane(p)
    ensures Sane(Evaluate(p, s.cycle, s.suspended, s.w1, s.w2))
    ensures Sane(Configure(p, cfg, now, s.w1, s.w2))
  {}

  /** One cycle whose writes succeed brings the coil to what the conditions
      say, from any state earlier failures may have left. */
  lemma OneCycleConverges(p: Plant, s: Sampling)
    requires Sane(p) && s.w1 && s.w2 && p.hold.cfg.Armed()
    ensures var q := Evaluate(p, s.cycle, s.suspended, s.w1, s.w2);
      q.hold.driven == q.hold.logic.holding &&
      (q.hold.driven ==> q.hold.drivenChannel == q.hold.cfg.relay && q.hold.cfg.relay in q.coils.on) &&
      (p.hold.driven && !q.hold.driven ==> p.hold.drivenChannel !in q.coils.on)
  {}

  lemma {:induction false} SampledSane(p: Plant, steps: seq<Sampling>)
    requires Sane(p)
    ensures Sane(Sampled(p, steps)) && Sampled(p, steps).hold.cfg == p.hold.cfg
    decreases |steps|
  {
    if steps != [] {
      var n := |steps| - 1;
      SampledSane(p, steps[..n]);
      SaneKept(Sampled(p, steps[..n]), p.hold.cfg, steps[n], 0);
    }
  }

  /** So after any cycles with any failed writes, one cycle whose writes succeed
      puts the coil where the history says. */
  lemma CatchesUp(p: Plant, steps: seq<Sampling>, s: Sampling)
    requires Sane(p) && p.hold.cfg.Armed() && p.hold.cfg.tripSamples >= 1 && p.hold.logic == RELEASED
    requires s.w1 && s.w2
    ensures var q := Sampled(p, steps + [s]); var held := HistoryHolds(p.hold.cfg, Cycles(steps + [s]));
      && q.hold.driven == held && (held ==> p.hold.cfg.relay in q.coils.on)
      && (Sampled(p, steps).hold.driven && !held ==> Sampled(p, steps).hold.drivenChannel !in q.coils.on)
  {
    assert (steps + [s])[..|steps|] == steps;
    SampledSane(p, steps);
    OneCycleConverges(Sampled(p, steps), s);
    HeldIffHistory(p, steps + [s]);
  }

  // ---- Taking a channel over ------------------------------------------------

  predicate TakesOver(p: Plant, cfg: HoldConfig) {
    cfg.Armed() && (!p.hold.cfg.Armed() || cfg.relay != p.hold.cfg.relay)
  }

  /** The first write of a reconfiguration lets go of another channel. */
  predicate LetsGoElsewhere(p: Plant, cfg: HoldConfig) {
    p.hold.driven && p.hold.drivenChannel != cfg.relay
  }

  /** The source promises that a channel taken over starts released. It does
      exactly when the coil was off already, or the take-over write succeeded
      and so did the release of the old channel before it, if there was one: a
      failed release leaves the old channel recorded, and the take-over write
      then goes there. */
  lemma TakeOverReleases(p: Plant, cfg: HoldConfig, now: int, w1: bool, w2: bool)
    requires Sane(p) && TakesOver(p, cfg)
    ensures cfg.relay !in Configure(p, cfg, now, w1, w2).coils.on <==>
      cfg.relay !in p.coils.on || (w2 && (LetsGoElsewhere(p, cfg) ==> w1))
  {}

  /** What the missed take-over costs: while nothing trips, no number of
      further cycles, all writes succeeding, turns the coil off. */
  lemma {:induction false} MissedTakeOverStays(p: Plant, steps: seq<Sampling>)
    requires p.hold.cfg.Armed() && !p.hold.driven && !p.hold.logic.holding && p.hold.cfg.relay in p.coils.on
    requires p.hold.logic.tripCount == 0
    requires forall s :: s in steps ==> !Bad(p.hold.cfg, s.cycle)
    ensures var q := Sampled(p, steps);
      q.hold.cfg == p.hold.cfg && !q.hold.driven && !q.hold.logic.holding && q.hold.logic.tripCount == 0 &&
      p.hold.cfg.relay in q.coils.on
    decreases |steps|
  {
    if steps != [] {
      MissedTakeOverStays(p, steps[..|steps| - 1]);
      assert steps[|steps| - 1] in steps;
    }
  }

  /** A concrete case: channel 1 held, the hold re-pointed to channel 2 whose
      coil a rule left on, and only the release of channel 1 fails. */
  lemma TakeOverCanMiss(one: HoldConfig)
    requires one.enabled && one.relay == 1 && one.interlockRelay == 0
    ensures var held := Plant(Hold(one, true, RELEASED.(holding := true), true, 1, {}), Coils({1, 2}, map[], 0, 0));
      var q := Configure(held, one.(relay := 2), 0, false, true);
      Sane(held) && q.hold.Owns(2) && 2 in q.coils.on && !q.hold.driven && !q.hold.logic.holding
  {}
}
