/** What the rules engine keeps, in one evaluation and over whole runs. */
module RuleRuns {
  import opened Wrappers
  import opened Relay
  import opened Rules

  predicate WellShaped(st: State, x: Inputs) {
    |x.thresholds| == |x.budget| == |x.readAt| == |st.rules|
  }

  ghost predicate Ordered(st: State, x: Inputs, drops: seq<int>, sweep: seq<int>) {
    WellShaped(st, x) && Lists(drops, Dropped(st, x)) && Lists(sweep, Expired(st, x))
  }

  // ---- One evaluation ---------------------------------------------------------

  /** Some rule among the first `n` is in force, holds, and drives `relay`. */
  ghost predicate ByRule(st: State, x: Inputs, n: nat, relay: int)
    requires n <= |st.rules| && n <= |x.thresholds|
  {
    exists i :: 0 <= i < n && Fires(st, x, i) && st.rules[i].relay == relay
  }

  /** Each rule adds at most one action, for itself, after the earlier ones. */
  lemma {:induction false} ConsideredExtends(p: Progress, x: Inputs, n: nat)
    requires n <= |p.st.rules| && WellShaped(p.st, x)
    ensures var q := Considered(p, x, n);
      |p.actions| <= |q.actions| && q.actions[..|p.actions|] == p.actions &&
      forall k :: |p.actions| <= k < |q.actions| ==> ByRule(p.st, x, n, q.actions[k].relay)
    decreases n
  {
    if n > 0 {
      ConsideredExtends(p, x, n - 1);
      var q, r := Considered(p, x, n - 1), Considered(p, x, n);
      assert Fires(q.st, x, n - 1) == Fires(p.st, x, n - 1);
      assert r.actions == q.actions || (|r.actions| == |q.actions| + 1 && r.actions[..|q.actions|] == q.actions);
      forall k | |p.actions| <= k < |r.actions|
        ensures ByRule(p.st, x, n, r.actions[k].relay)
      {
        if k < |q.actions| {
          assert r.actions[k] == r.actions[..|q.actions|][k] == q.actions[k];
        } else {
          assert Fires(p.st, x, n - 1) && r.actions[k].relay == p.st.rules[n - 1].relay;
        }
      }
    }
  }

  /** When the OFF of a channel to let go of is stamped. */
  function LetGoAt(st: State, x: Inputs, ch: int): int { if ch in Dropped(st, x) then x.revertAt else x.now }

  /** Outside the schedule, or under manual override, an evaluation only
      switches channels off, and only those it must let go of. */
  lemma GuardedOnlyLetsGo(st: State, x: Inputs, drops: seq<int>, sweep: seq<int>)
    requires Ordered(st, x, drops, sweep) && Guarded(st, x)
    ensures forall a: Action :: a in Evaluated(st, x, drops, sweep).actions <==>
      !a.on && a.at == LetGoAt(st, x, a.relay) && (a.relay in Dropped(st, x) || a.relay in Expired(st, x))
  {
    var o, e := Offs(drops, x.revertAt), Offs(sweep, x.now);
    assert Dropped(st, x) !! Expired(st, x);
    forall a: Action | !a.on && a.at == LetGoAt(st, x, a.relay) && (a.relay in Dropped(st, x) || a.relay in Expired(st, x))
      ensures a in o + e
    {
      if a.relay in drops {
        var i :| 0 <= i < |drops| && drops[i] == a.relay;
        assert o[i] == a;
      } else {
        var i :| 0 <= i < |sweep| && sweep[i] == a.relay;
        assert e[i] == a;
      }
    }
    forall a | a in o + e ensures (a in o && a.relay in drops) || (a in e && a.relay in sweep) {}
  }

  lemma ReleasedFirst(st: State, x: Inputs, drops: seq<int>, sweep: seq<int>, ch: int)
    requires Ordered(st, x, drops, sweep)
    ensures var r := Released(x, drops, sweep);
      && (forall i :: 0 <= i < |r| ==> r[i].relay !in x.reserved)
      && (ch in Dropped(st, x) || ch in Expired(st, x) ==> ActsFirst(r, Action(ch, false, LetGoAt(st, x, ch))))
  {
    var r := Released(x, drops, sweep);
    assert Dropped(st, x) !! Expired(st, x);
    forall i | 0 <= i < |r| ensures r[i].relay !in x.reserved {
      if i < |drops| { assert drops[i] in drops; } else { assert sweep[i - |drops|] in sweep; }
    }
    if ch in drops {
      var j :| 0 <= j < |drops| && drops[j] == ch;
      assert r[j] == Action(ch, false, x.revertAt);
    } else if ch in sweep {
      var j :| 0 <= j < |sweep| && sweep[j] == ch;
      assert r[|drops| + j] == Action(ch, false, x.now);
      assert forall i :: 0 <= i < |drops| ==> drops[i] in drops && r[i].relay == drops[i];
    }
  }

  /** `a` is the first action on its relay. */
  ghost predicate ActsFirst(actions: seq<Action>, a: Action) {
    exists j :: 0 <= j < |actions| && actions[j] == a && forall i :: 0 <= i < j ==> actions[i].relay != a.relay
  }

  /** A channel to let go of gets its OFF before any other action on it, and
      no action is ever issued on an owned channel. */
  lemma LetsGoFirst(st: State, x: Inputs, drops: seq<int>, sweep: seq<int>, ch: int)
    requires Ordered(st, x, drops, sweep)
    ensures var actions := Evaluated(st, x, drops, sweep).actions;
      && (ch in Dropped(st, x) || ch in Expired(st, x) ==> ActsFirst(actions, Action(ch, false, LetGoAt(st, x, ch))))
      && (ch in x.reserved ==> forall i :: 0 <= i < |actions| ==> actions[i].relay != ch)
  {
    var start := Progress(LetGo(st, x), Released(x, drops, sweep), map[]);
    ReleasedFirst(st, x, drops, sweep, ch);
    if !Guarded(st, x) {
      ConsideredExtends(start, x, |st.rules|);
      FirstStays(start.actions, Considered(start, x, |st.rules|).actions, Action(ch, false, LetGoAt(st, x, ch)));
    }
  }

  /** What comes after does not change what came first. */
  lemma FirstStays(first: seq<Action>, all: seq<Action>, a: Action)
    requires first <= all
    ensures ActsFirst(first, a) ==> ActsFirst(all, a)
    ensures forall i :: 0 <= i < |first| ==> all[i] == first[i]
  {
    if ActsFirst(first, a) {
      var j :| 0 <= j < |first| && first[j] == a && forall i :: 0 <= i < j ==> first[i].relay != a.relay;
      assert all[j] == a && forall i :: 0 <= i < j ==> all[i] == first[i];
    }
  }

  /** In schedule, an OFF rule that fires always acts, whatever the cooldown,
      the budget or the rules before it. */
  lemma {:induction false} OffAlwaysActs(p: Progress, x: Inputs, n: nat, i: nat)
    requires i < n <= |p.st.rules| && WellShaped(p.st, x)
    requires Fires(p.st, x, i) && !p.st.rules[i].on
    ensures Action(p.st.rules[i].relay, false, x.now) in Considered(p, x, n).actions
    decreases n
  {
    if i < n - 1 {
      OffAlwaysActs(p, x, n - 1, i);
    }
    var q := Considered(p, x, n - 1);
    assert Fires(q.st, x, n - 1) == Fires(p.st, x, n - 1);
  }

  // ---- Runs ------------------------------------------------------------------------

  datatype Step =
    | Evaluation(x: Inputs, drops: seq<int>, sweep: seq<int>)
    | Suspension(sensors: set<string>)
    | Downlinked(cmd: Command, reserved: set<int>, now: int)

  /** The engine, everything `evaluate` has issued, and the clock when it last
      stamped a drop. */
  datatype Logged = Logged(st: State, log: seq<Action>, clock: int)

  ghost predicate Happens(s: Logged, step: Step) {
    step.Evaluation? ==>
      Fits(s.st, step.x) && s.clock <= step.x.now && Ordered(s.st, step.x, step.drops, step.sweep)
  }

  function Next(s: Logged, step: Step): Logged
    requires step.Evaluation? ==> WellShaped(s.st, step.x)
  {
    match step
    case Evaluation(x, drops, sweep) =>
      var q := Evaluated(s.st, x, drops, sweep);
      Logged(q.st, s.log + q.actions, x.revertAt)
    case Suspension(sensors) => s.(st := Suspend(s.st, sensors))
    case Downlinked(cmd, reserved, now) => s.(st := Downlink(s.st, Coils({}, map[], 0, 0), cmd, reserved, now).0)
  }

  ghost predicate Reaches(s: Logged, steps: seq<Step>, t: Logged)
    decreases |steps|
  {
    if steps == [] then s == t
    else Happens(s, steps[0]) && Reaches(Next(s, steps[0]), steps[1..], t)
  }

  /** The stamp of a relay's latest OFF. */
  function LastStamp(log: seq<Action>, relay: int): Option<int>
    decreases |log|
  {
    if log == [] then None
    else
      var a := log[|log| - 1];
      if !a.on && a.relay == relay then Some(a.at) else LastStamp(log[..|log| - 1], relay)
  }

  /** By entry `j` the relay's latest OFF bears an earlier stamp than its OFF `i`:
      that one has been forgotten. */
  predicate Forgotten(log: seq<Action>, i: nat, j: nat)
    requires i < j <= |log|
  {
    var l := LastStamp(log[..j], log[i].relay);
    l.Some? && l.value < log[i].at
  }

  /** The engine remembers each relay's latest OFF, by its stamp. */
  ghost predicate Remembered(log: seq<Action>, lastOff: map<int, int>) {
    forall r: int :: LastStamp(log, r).Some? ==> r in lastOff && lastOff[r] == LastStamp(log, r).value
  }

  /** No ON comes within the cooldown of its relay's latest OFF. */
  ghost predicate Spaced(log: seq<Action>, cooldown: int) {
    forall j :: 0 <= j < |log| && log[j].on ==> SpacedAt(log, j, cooldown)
  }

  predicate SpacedAt(log: seq<Action>, j: nat, cooldown: int)
    requires j < |log|
  {
    var l := LastStamp(log[..j], log[j].relay);
    l.Some? ==> log[j].at - l.value >= cooldown
  }

  ghost predicate Before(log: seq<Action>, clock: int) {
    forall i :: 0 <= i < |log| && !log[i].on ==> log[i].at <= clock
  }

  ghost predicate Sound(log: seq<Action>, st: State, clock: int) {
    Remembered(log, st.lastOff) && Spaced(log, st.policies.cooldown) && Before(log, clock)
  }

  lemma StampAfter(log: seq<Action>, a: Action, relay: int)
    ensures LastStamp(log + [a], relay) == if !a.on && a.relay == relay then Some(a.at) else LastStamp(log, relay)
  {
    assert (log + [a])[..|log|] == log;
  }

  /** One more action keeps the log sound: an ON when the relay is not cooling
      down, an OFF with its stamp. */
  lemma OneSound(log: seq<Action>, st: State, a: Action, clock: int, stamps: map<int, int>)
    requires Sound(log, st, clock)
    requires a.on ==> stamps == st.lastOff && (a.relay in st.lastOff ==> a.at - st.lastOff[a.relay] >= st.policies.cooldown)
    requires !a.on ==> a.at <= clock && stamps == st.lastOff[a.relay := a.at]
    ensures Sound(log + [a], st.(lastOff := stamps), clock)
  {
    var all := log + [a];
    forall r: int | LastStamp(all, r).Some? ensures r in stamps && stamps[r] == LastStamp(all, r).value {
      StampAfter(log, a, r);
    }
    forall j | 0 <= j < |all| && all[j].on ensures SpacedAt(all, j, st.policies.cooldown) {
      assert all[..j] == log[..j];
      assert log[..|log|] == log;
      if j < |log| { assert SpacedAt(log, j, st.policies.cooldown); }
    }
  }

  lemma ConsiderSound(prior: seq<Action>, p: Progress, x: Inputs, i: nat)
    requires i < |p.st.rules| && WellShaped(p.st, x) && p.st.policies.cooldown > 0 && x.now <= x.revertAt
    requires Sound(prior + p.actions, p.st, x.revertAt)
    ensures Sound(prior + Consider(p, x, i).actions, Consider(p, x, i).st, x.revertAt)
  {
    var q := Consider(p, x, i);
    if q.actions != p.actions {
      var a := q.actions[|p.actions|];
      OneSound(prior + p.actions, p.st, a, x.revertAt, q.st.lastOff);
      assert prior + q.actions == (prior + p.actions) + [a];
    }
  }

  lemma {:induction false} ConsideredSound(prior: seq<Action>, p: Progress, x: Inputs, n: nat)
    requires n <= |p.st.rules| && WellShaped(p.st, x) && p.st.policies.cooldown > 0 && x.now <= x.revertAt
    requires Sound(prior + p.actions, p.st, x.revertAt)
    ensures Sound(prior + Considered(p, x, n).actions, Considered(p, x, n).st, x.revertAt)
    decreases n
  {
    if n > 0 {
      ConsideredSound(prior, p, x, n - 1);
      ConsiderSound(prior, Considered(p, x, n - 1), x, n - 1);
    }
  }

  /** So do OFFs of several relays, stamped alike. */
  lemma {:induction false} OffsSound(log: seq<Action>, st: State, channels: seq<int>, at: int, clock: int)
    requires Sound(log, st, clock) && at <= clock
    ensures Sound(log + Offs(channels, at), st.(lastOff := Stamped(st.lastOff, SetOf(channels), at)), clock)
    decreases |channels|
  {
    var n := |channels|;
    if n == 0 {
      assert log + Offs(channels, at) == log;
      assert Stamped(st.lastOff, SetOf(channels), at) == st.lastOff;
    } else {
      var init, last := channels[..n - 1], channels[n - 1];
      OffsSound(log, st, init, at, clock);
      var mid := st.(lastOff := Stamped(st.lastOff, SetOf(init), at));
      OneSound(log + Offs(init, at), mid, Action(last, false, at), clock, mid.lastOff[last := at]);
      assert Offs(channels, at) == Offs(init, at) + [Action(last, false, at)];
      assert log + Offs(channels, at) == (log + Offs(init, at)) + [Action(last, false, at)];
      WalkOn(map[], st.lastOff, channels, n - 1, at);
      assert channels[..n] == channels;
    }
  }

  lemma LetGoSound(log: seq<Action>, st: State, x: Inputs, drops: seq<int>, sweep: seq<int>, clock: int)
    requires Ordered(st, x, drops, sweep) && Sound(log, st, clock) && clock <= x.now <= x.revertAt
    ensures Sound(log + Released(x, drops, sweep), LetGo(st, x), x.revertAt)
  {
    SetOfAll(drops, Dropped(st, x));
    SetOfAll(sweep, Expired(st, x));
    OffsSound(log, st, drops, x.revertAt, x.revertAt);
    var mid := st.(lastOff := Stamped(st.lastOff, Dropped(st, x), x.revertAt));
    OffsSound(log + Offs(drops, x.revertAt), mid, sweep, x.now, x.revertAt);
    Regroup(log, Offs(drops, x.revertAt), Offs(sweep, x.now));
  }

  lemma StepSound(s: Logged, step: Step)
    requires Sound(s.log, s.st, s.clock) && s.st.policies.cooldown > 0 && Happens(s, step)
    ensures var t := Next(s, step);
      Sound(t.log, t.st, t.clock) && t.st.policies == s.st.policies && t.st.rules == s.st.rules
  {
    if step.Evaluation? {
      var x := step.x;
      LetGoSound(s.log, s.st, x, step.drops, step.sweep, s.clock);
      var start := Progress(LetGo(s.st, x), Released(x, step.drops, step.sweep), map[]);
      if !Guarded(s.st, x) {
        ConsideredSound(s.log, start, x, |s.st.rules|);
      }
    }
  }

  lemma {:induction false} RunSound(s: Logged, steps: seq<Step>, t: Logged)
    requires Sound(s.log, s.st, s.clock) && s.st.policies.cooldown > 0 && Reaches(s, steps, t)
    ensures Sound(t.log, t.st, t.clock) && t.st.policies == s.st.policies && t.st.rules == s.st.rules
    decreases |steps|
  {
    if steps != [] {
      StepSound(s, steps[0]);
      RunSound(Next(s, steps[0]), steps[1..], t);
    }
  }

  /** From an engine that has issued nothing, any evaluations, suspensions and
      downlinks lead here. */
  ghost predicate Reached(s: Logged, steps: seq<Step>, t: Logged) {
    s.log == [] && s.st.policies.cooldown > 0 && Reaches(s, steps, t)
  }

  /** Over every run, each OFF timed at its own stamp: an ON of the engine follows
      an OFF on the same relay in less than the cooldown only if that OFF has
      been forgotten. */
  lemma CooldownKept(s: Logged, steps: seq<Step>, t: Logged, i: nat, j: nat)
    requires Reached(s, steps, t) && i < j < |t.log|
    requires !t.log[i].on && t.log[j].on && t.log[i].relay == t.log[j].relay
    ensures Forgotten(t.log, i, j) || t.log[j].at - t.log[i].at >= t.st.policies.cooldown
  {
    RunSound(s, steps, t);
    assert SpacedAt(t.log, j, t.st.policies.cooldown);
    OffHasStamp(t.log[..j], i);
  }

  lemma {:induction false} OffHasStamp(log: seq<Action>, i: nat)
    requires i < |log| && !log[i].on
    ensures LastStamp(log, log[i].relay).Some?
    decreases |log|
  {
    if i < |log| - 1 {
      assert log[..|log| - 1][i] == log[i];
      OffHasStamp(log[..|log| - 1], i);
    }
  }

  // ---- Exactly when an ON can come early ----------------------------------------------

  /** The rules may at some time switch the relay on. */
  predicate SwitchesOn(st: State, relay: int) {
    !st.policies.manualOverride &&
    exists n :: 0 <= n < |st.rules| && OnRule(st.rules[n], relay)
  }

  predicate OnRule(r: Rule, relay: int) { r.on && r.relay == relay && r.op != Unrecognised }

  /** Everything logged from `s` to `t` came later, and each ON from a rule. */
  ghost predicate Later(s: Logged, t: Logged) {
    && s.log <= t.log && s.clock <= t.clock && t.st.rules == s.st.rules && t.st.policies == s.st.policies
    && (forall k :: |s.log| <= k < |t.log| ==>
          t.log[k].at >= s.clock && (t.log[k].on ==> SwitchesOn(s.st, t.log[k].relay)))
  }

  lemma {:induction false} ConsideredLater(p: Progress, x: Inputs, n: nat)
    requires n <= |p.st.rules| && Fits(p.st, x) && !p.st.policies.manualOverride
    ensures var q := Considered(p, x, n);
      && p.actions <= q.actions
      && (forall k :: |p.actions| <= k < |q.actions| ==>
            if q.actions[k].on then q.actions[k].at >= x.revertAt && SwitchesOn(p.st, q.actions[k].relay)
            else q.actions[k].at == x.now)
    decreases n
  {
    if n > 0 {
      ConsideredLater(p, x, n - 1);
      var q := Considered(p, x, n - 1);
      if Fires(q.st, x, n - 1) && p.st.rules[n - 1].on {
        assert OnRule(p.st.rules[n - 1], p.st.rules[n - 1].relay);
      }
    }
  }

  lemma StepLater(s: Logged, step: Step)
    requires Happens(s, step)
    ensures Later(s, Next(s, step))
  {
    if step.Evaluation? {
      var x := step.x;
      var start := Progress(LetGo(s.st, x), Released(x, step.drops, step.sweep), map[]);
      if !Guarded(s.st, x) { ConsideredLater(start, x, |s.st.rules|); }
      var q := Evaluated(s.st, x, step.drops, step.sweep);
      var t := Next(s, step);
      forall k | |s.log| <= k < |t.log|
        ensures t.log[k].at >= s.clock && (t.log[k].on ==> SwitchesOn(s.st, t.log[k].relay))
      {
        assert t.log[k] == q.actions[k - |s.log|];
        if t.log[k].on { SameSwitches(start.st, s.st, t.log[k].relay); }
      }
    }
  }

  lemma SameSwitches(a: State, b: State, relay: int)
    requires a.rules == b.rules && a.policies == b.policies
    ensures SwitchesOn(a, relay) == SwitchesOn(b, relay)
  {}

  lemma LaterOn(s: Logged, m: Logged, t: Logged)
    requires Later(s, m) && Later(m, t)
    ensures Later(s, t)
  {
    forall k | |s.log| <= k < |t.log|
      ensures t.log[k].at >= s.clock && (t.log[k].on ==> SwitchesOn(s.st, t.log[k].relay))
    {
      if k < |m.log| { assert t.log[k] == m.log[k]; }
      SameSwitches(m.st, s.st, t.log[k].relay);
    }
  }

  lemma {:induction false} RunLater(s: Logged, steps: seq<Step>, t: Logged)
    requires Reaches(s, steps, t)
    ensures Later(s, t)
    decreases |steps|
  {
    if steps != [] {
      StepLater(s, steps[0]);
      RunLater(Next(s, steps[0]), steps[1..], t);
      LaterOn(s, Next(s, steps[0]), t);
    }
  }

  /** The latest stamp is the one there was, or one of the OFFs since. */
  lemma {:induction false} StampSince(log: seq<Action>, n: nat, relay: int, clock: int)
    requires n <= |log| && forall k :: n <= k < |log| ==> log[k].at >= clock
    ensures var l := LastStamp(log, relay); l == LastStamp(log[..n], relay) || (l.Some? && l.value >= clock)
    decreases |log|
  {
    if n == |log| {
      assert log[..n] == log;
    } else {
      var init := log[..|log| - 1];
      assert init[..n] == log[..n];
      StampSince(init, n, relay, clock);
    }
  }

  /** An ON on the relay of OFF `i` follows it in less than the cooldown. */
  ghost predicate EarlyOn(s: Logged, i: nat, steps: seq<Step>, t: Logged, j: nat)
    requires i < |s.log|
  {
    && Reaches(s, steps, t) && |s.log| <= j < |t.log|
    && t.log[j].on && t.log[j].relay == s.log[i].relay && t.log[j].at - s.log[i].at < s.st.policies.cooldown
  }

  /** Some run from here brings such an ON. */
  ghost predicate CanComeEarly(s: Logged, i: nat)
    requires i < |s.log|
  {
    exists steps, t, j :: EarlyOn(s, i, steps, t, j)
  }

  /** In every reachable state, for each OFF so far: an ON of its relay can still
      come within the cooldown of it if and only if the engine remembers an
      earlier stamp for the relay, the cooldown is not over, and there is a rule
      to switch the relay on. */
  lemma EarlyOnExact(s0: Logged, before: seq<Step>, s: Logged, i: nat)
    requires Reached(s0, before, s) && i < |s.log| && !s.log[i].on
    ensures s.log[i].relay in s.st.lastOff
    ensures CanComeEarly(s, i) <==>
      s.st.lastOff[s.log[i].relay] < s.log[i].at && s.clock < s.log[i].at + s.st.policies.cooldown
      && SwitchesOn(s.st, s.log[i].relay)
  {
    RunSound(s0, before, s);
    OffHasStamp(s.log, i);
    if CanComeEarly(s, i) {
      var steps, t, j :| EarlyOn(s, i, steps, t, j);
      EarlyOnlyIf(s, i, steps, t, j);
    }
    if s.st.lastOff[s.log[i].relay] < s.log[i].at && s.clock < s.log[i].at + s.st.policies.cooldown
       && SwitchesOn(s.st, s.log[i].relay) {
      var steps, t, j := BringOn(s, i);
      assert EarlyOn(s, i, steps, t, j);
    }
  }

  lemma EarlyOnlyIf(s: Logged, i: nat, steps: seq<Step>, t: Logged, j: nat)
    requires Sound(s.log, s.st, s.clock) && s.st.policies.cooldown > 0 && i < |s.log| && !s.log[i].on
    requires EarlyOn(s, i, steps, t, j) && LastStamp(s.log, s.log[i].relay).Some?
    ensures LastStamp(s.log, s.log[i].relay).value < s.log[i].at && s.clock < s.log[i].at + s.st.policies.cooldown
    ensures SwitchesOn(s.st, s.log[i].relay)
  {
    var r, log := s.log[i].relay, t.log[..j];
    RunSound(s, steps, t);
    RunLater(s, steps, t);
    assert SpacedAt(t.log, j, s.st.policies.cooldown);
    assert log[..|s.log|] == s.log && s.log[i] == log[i];
    OffHasStamp(log, i);
    forall k | |s.log| <= k < |log| ensures log[k].at >= s.clock { assert log[k] == t.log[k]; }
    StampSince(log, |s.log|, r, s.clock);
  }

  // ---- Bringing one about -------------------------------------------------------------

  lemma {:induction false} Listing(s: set<int>) returns (q: seq<int>)
    ensures Lists(q, s)
    decreases s
  {
    if s == {} {
      q := [];
    } else {
      assert (forall ch :: ch !in s) ==> s == {};
      var ch :| ch in s;
      var rest := Listing(s - {ch});
      q := rest + [ch];
    }
  }

  /** An evaluation with only rule `n` looked at, if any. */
  function Quiet(st: State, n: nat, values: map<string, real>, level: real, reserved: set<int>, now: int, at: int): Inputs {
    Inputs(reserved, values, seq(|st.rules|, k => if k == n then Some(level) else None),
           seq(|st.rules|, _ => true), if st.policies.schedule.Always? then 0 else MINUTE * st.policies.schedule.start,
           now, now, seq(|st.rules|, _ => at))
  }

  lemma {:induction false} NothingFires(p: Progress, x: Inputs, n: nat, m: nat)
    requires n <= m <= |p.st.rules| && WellShaped(p.st, x)
    requires forall k :: n <= k < m ==> x.thresholds[k].None?
    ensures Considered(p, x, m) == Considered(p, x, n)
    decreases m
  {
    if n < m { NothingFires(p, x, n, m - 1); }
  }

  /** An evaluation in which the relay is set aside: it forgets what it was about
      to let go of there. */
  lemma SetAside(s: Logged, r: int) returns (e: Step)
    ensures Happens(s, e)
    ensures var t := Next(s, e);
      && s.log <= t.log && t.clock == s.clock && t.st.rules == s.st.rules && t.st.policies == s.st.policies
      && t.st.suspended == s.st.suspended && r !in t.st.pending && r !in t.st.timers
      && (r in s.st.lastOff ==> r in t.st.lastOff && t.st.lastOff[r] == s.st.lastOff[r])
  {
    var x := Quiet(s.st, |s.st.rules|, map[], 0.0, {r}, s.clock, s.clock);
    var drops := Listing(Dropped(s.st, x));
    var sweep := Listing(Expired(s.st, x));
    e := Evaluation(x, drops, sweep);
    NothingFires(Progress(LetGo(s.st, x), Released(x, drops, sweep), map[]), x, 0, |s.st.rules|);
  }

  /** A reading that makes an ON rule fire. */
  lemma Firing(op: Operator) returns (v: real, level: real)
    requires op != Unrecognised
    ensures Compares(op, v, level)
  {
    level := 0.0;
    v := if op == Gt then 1.0 else if op == Lt then -1.0 else 0.0;
  }

  /** An evaluation in which only rule `n` fires, past the cooldown. */
  lemma OnlyRule(s: Logged, n: nat, at: int) returns (e: Step)
    requires n < |s.st.rules| && OnRule(s.st.rules[n], s.st.rules[n].relay) && !s.st.policies.manualOverride && s.clock <= at
    requires s.st.suspended == {} && s.st.rules[n].relay !in s.st.pending && s.st.rules[n].relay !in s.st.timers
    requires !InCooldown(s.st, s.st.rules[n].relay, at)
    ensures Happens(s, e)
    ensures var t := Next(s, e);
      s.log <= t.log && |s.log| < |t.log| && t.log[|t.log| - 1] == Action(s.st.rules[n].relay, true, at)
  {
    var rule := s.st.rules[n];
    var v, level := Firing(rule.op);
    var x := Quiet(s.st, n, map[rule.sensor := v], level, {}, s.clock, at);
    var drops := Listing(Dropped(s.st, x));
    var sweep := Listing(Expired(s.st, x));
    e := Evaluation(x, drops, sweep);
    var start := Progress(LetGo(s.st, x), Released(x, drops, sweep), map[]);
    assert !InCooldown(start.st, rule.relay, at);
    OnlyFires(start, x, n, |s.st.rules|);
  }

  lemma {:induction false} OnlyFires(p: Progress, x: Inputs, n: nat, m: nat)
    requires WellShaped(p.st, x) && n < |p.st.rules| && m <= |p.st.rules| && Fires(p.st, x, n) && p.st.rules[n].on && x.budget[n]
    requires !InCooldown(p.st, p.st.rules[n].relay, x.readAt[n])
    requires forall k :: 0 <= k < |x.thresholds| && k != n ==> x.thresholds[k].None?
    ensures var q := Considered(p, x, m);
      if n < m then q.actions == p.actions + [Action(p.st.rules[n].relay, true, x.readAt[n])] else q == p
    decreases m
  {
    if m > 0 {
      OnlyFires(p, x, n, m - 1);
      var q := Considered(p, x, m - 1);
      if m - 1 == n { SwitchesNow(p, x, n); } else { StaysOff(q, x, m - 1); }
    }
  }

  lemma StaysOff(p: Progress, x: Inputs, n: nat)
    requires WellShaped(p.st, x) && n < |p.st.rules| && x.thresholds[n].None?
    ensures Consider(p, x, n) == p
  {}

  lemma SwitchesNow(p: Progress, x: Inputs, n: nat)
    requires WellShaped(p.st, x) && n < |p.st.rules| && Fires(p.st, x, n) && p.st.rules[n].on && x.budget[n]
    requires !InCooldown(p.st, p.st.rules[n].relay, x.readAt[n])
    ensures Consider(p, x, n).actions == p.actions + [Action(p.st.rules[n].relay, true, x.readAt[n])]
  {}

  lemma ThreeSteps(s: Logged, a: Step, b: Step, c: Step)
    requires Happens(s, a) && Happens(Next(s, a), b) && Happens(Next(Next(s, a), b), c)
    ensures Reaches(s, [a, b, c], Next(Next(Next(s, a), b), c))
  {
    var t := Next(Next(Next(s, a), b), c);
    assert [a, b, c][1..] == [b, c] && [b, c][1..] == [c] && [c][1..] == [];
    assert Reaches(Next(Next(s, a), b), [c], t);
    assert Reaches(Next(s, a), [b, c], t);
  }

  lemma ProbesBack(s: Logged)
    ensures Next(s, Suspension({})) == s.(st := s.st.(suspended := {}))
  {
    var none: set<string> := {};
    assert (set x | x in none :: ColumnOf(x)) == {};
    assert DrivenBy(s.st.rules, {} - s.st.suspended) == {};
  }

  /** The sensors come back, the channel is set aside once, and the rule fires. */
  lemma BringRuleOn(s: Logged, n: nat, at: int) returns (steps: seq<Step>, t: Logged)
    requires n < |s.st.rules| && OnRule(s.st.rules[n], s.st.rules[n].relay) && !s.st.policies.manualOverride
    requires s.clock <= at && s.st.rules[n].relay in s.st.lastOff && !InCooldown(s.st, s.st.rules[n].relay, at)
    ensures Reaches(s, steps, t) && s.log <= t.log && |s.log| < |t.log|
    ensures t.log[|t.log| - 1] == Action(s.st.rules[n].relay, true, at)
  {
    var a := Suspension({});
    var s1 := Next(s, a);
    ProbesBack(s);
    var b := SetAside(s1, s.st.rules[n].relay);
    var s2 := Next(s1, b);
    var c := OnlyRule(s2, n, at);
    steps, t := Chain(s, a, s1, b, s2, c);
  }

  /** From where the stamp remembered is earlier than OFF `i`'s, a rule fires as
      soon as it may. */
  lemma BringOn(s: Logged, i: nat) returns (steps: seq<Step>, t: Logged, j: nat)
    requires i < |s.log| && s.st.policies.cooldown > 0 && s.log[i].relay in s.st.lastOff
    requires s.st.lastOff[s.log[i].relay] < s.log[i].at && s.clock < s.log[i].at + s.st.policies.cooldown
    requires SwitchesOn(s.st, s.log[i].relay)
    ensures EarlyOn(s, i, steps, t, j)
  {
    var r := s.log[i].relay;
    var n :| 0 <= n < |s.st.rules| && OnRule(s.st.rules[n], r);
    var due := s.st.lastOff[r] + s.st.policies.cooldown;
    steps, t := BringRuleOn(s, n, if s.clock < due then due else s.clock);
    j := |t.log| - 1;
  }

  // ---- Which OFFs are forgotten ---------------------------------------------------------

  /** Some rule among the first `n` switches the channel off. */
  ghost predicate OffAmong(st: State, x: Inputs, n: nat, ch: int)
    requires n <= |st.rules| && WellShaped(st, x)
  {
    exists k :: 0 <= k < n && Fires(st, x, k) && !st.rules[k].on && st.rules[k].relay == ch
  }

  /** A rule switches the channel off in this evaluation. */
  ghost predicate OffFires(st: State, x: Inputs, ch: int)
    requires WellShaped(st, x)
  {
    OffAmong(st, x, |st.rules|, ch)
  }

  /** The guard under which a drop of this evaluation is forgotten at once: a
      rule switches the same channel off, and the drop was stamped later than the
      evaluation began. */
  ghost predicate Undercut(st: State, x: Inputs, ch: int)
    requires WellShaped(st, x)
  {
    !Guarded(st, x) && x.now < x.revertAt && OffFires(st, x, ch)
  }

  lemma {:induction false} OffsStamp(log: seq<Action>, channels: seq<int>, at: int, ch: int)
    ensures LastStamp(log + Offs(channels, at), ch) == if ch in channels then Some(at) else LastStamp(log, ch)
    decreases |channels|
  {
    var n := |channels|;
    if n == 0 {
      assert log + Offs(channels, at) == log;
    } else {
      var init, last := channels[..n - 1], Action(channels[n - 1], false, at);
      OffsStamp(log, init, at, ch);
      assert log + Offs(channels, at) == (log + Offs(init, at)) + [last];
      StampAfter(log + Offs(init, at), last, ch);
      assert channels == init + [channels[n - 1]];
    }
  }

  lemma {:induction false} ConsideredStamp(prior: seq<Action>, p: Progress, x: Inputs, n: nat, ch: int)
    requires n <= |p.st.rules| && WellShaped(p.st, x)
    ensures LastStamp(prior + Considered(p, x, n).actions, ch)
      == if OffAmong(p.st, x, n, ch) then Some(x.now) else LastStamp(prior + p.actions, ch)
    decreases n
  {
    if n > 0 {
      ConsideredStamp(prior, p, x, n - 1, ch);
      ConsiderStamp(prior, Considered(p, x, n - 1), x, n - 1, ch);
      OffAmongOn(p.st, x, n - 1, ch);
      assert Fires(Considered(p, x, n - 1).st, x, n - 1) == Fires(p.st, x, n - 1);
    }
  }

  lemma OffAmongOn(st: State, x: Inputs, n: nat, ch: int)
    requires n < |st.rules| && WellShaped(st, x)
    ensures OffAmong(st, x, n + 1, ch) <==>
      OffAmong(st, x, n, ch) || (Fires(st, x, n) && !st.rules[n].on && st.rules[n].relay == ch)
  {}

  lemma ConsiderStamp(prior: seq<Action>, q: Progress, x: Inputs, n: nat, ch: int)
    requires n < |q.st.rules| && WellShaped(q.st, x)
    ensures LastStamp(prior + Consider(q, x, n).actions, ch)
      == if Fires(q.st, x, n) && !q.st.rules[n].on && q.st.rules[n].relay == ch then Some(x.now)
         else LastStamp(prior + q.actions, ch)
  {
    var r := Consider(q, x, n);
    if r.actions != q.actions {
      var a := r.actions[|q.actions|];
      assert prior + r.actions == (prior + q.actions) + [a];
      StampAfter(prior + q.actions, a, ch);
    }
  }

  /** What an evaluation leaves as a relay's latest stamp. */
  lemma EvaluatedStamp(s: Logged, x: Inputs, drops: seq<int>, sweep: seq<int>, ch: int)
    requires Ordered(s.st, x, drops, sweep)
    ensures LastStamp(Next(s, Evaluation(x, drops, sweep)).log, ch) ==
      if !Guarded(s.st, x) && OffFires(s.st, x, ch) then Some(x.now)
      else if ch in Dropped(s.st, x) then Some(x.revertAt)
      else if ch in Expired(s.st, x) then Some(x.now)
      else LastStamp(s.log, ch)
  {
    var start := Progress(LetGo(s.st, x), Released(x, drops, sweep), map[]);
    Regroup(s.log, Offs(drops, x.revertAt), Offs(sweep, x.now));
    OffsStamp(s.log, drops, x.revertAt, ch);
    OffsStamp(s.log + Offs(drops, x.revertAt), sweep, x.now, ch);
    ConsideredStamp(s.log, start, x, |s.st.rules|, ch);
    assert forall k :: 0 <= k < |s.st.rules| ==> Fires(start.st, x, k) == Fires(s.st, x, k);
  }

  /** The evaluation lets go of the channel, or a rule switches it off. */
  ghost predicate SwitchedOff(st: State, x: Inputs, ch: int)
    requires WellShaped(st, x)
  {
    ch in Dropped(st, x) || ch in Expired(st, x) || (!Guarded(st, x) && OffFires(st, x, ch))
  }

  lemma {:induction false} ReachesOn(s: Logged, steps: seq<Step>, t: Logged, e: Step)
    requires Reaches(s, steps, t) && Happens(t, e)
    ensures Reaches(s, steps + [e], Next(t, e))
    decreases |steps|
  {
    if steps == [] {
      assert [e][1..] == [];
      assert Reaches(Next(t, e), [], Next(t, e));
    } else {
      assert (steps + [e])[1..] == steps[1..] + [e];
      ReachesOn(Next(s, steps[0]), steps[1..], t, e);
    }
  }

  /** Exactly which OFFs are forgotten after an evaluation: of those before it,
      the ones that were, if their relay was left alone; of its own, the drops
      that a rule of the same evaluation undercuts. */
  lemma ForgottenExact(s: Logged, x: Inputs, drops: seq<int>, sweep: seq<int>, i: nat)
    requires Before(s.log, s.clock) && Happens(s, Evaluation(x, drops, sweep))
    requires i < |Next(s, Evaluation(x, drops, sweep)).log| && !Next(s, Evaluation(x, drops, sweep)).log[i].on
    ensures var t := Next(s, Evaluation(x, drops, sweep));
      Forgotten(t.log, i, |t.log|) <==>
        if i < |s.log| then Forgotten(s.log, i, |s.log|) && !SwitchedOff(s.st, x, s.log[i].relay)
        else i < |s.log| + |drops| && Undercut(s.st, x, t.log[i].relay)
  {
    var t := Next(s, Evaluation(x, drops, sweep));
    assert t.log[..|t.log|] == t.log && s.log[..|s.log|] == s.log;
    EvaluatedStamp(s, x, drops, sweep, t.log[i].relay);
    if i >= |s.log| { OwnStamp(s, x, drops, sweep, i - |s.log|); }
  }

  lemma OwnStamp(s: Logged, x: Inputs, drops: seq<int>, sweep: seq<int>, k: nat)
    requires Happens(s, Evaluation(x, drops, sweep))
    requires k < |Evaluated(s.st, x, drops, sweep).actions| && !Evaluated(s.st, x, drops, sweep).actions[k].on
    ensures var a := Evaluated(s.st, x, drops, sweep).actions[k];
      && a.at == (if k < |drops| then x.revertAt else x.now)
      && (k < |drops| ==> a.relay == drops[k] && drops[k] in Dropped(s.st, x))
      && SwitchedOff(s.st, x, a.relay)
  {
    var start := Progress(LetGo(s.st, x), Released(x, drops, sweep), map[]);
    var q := Evaluated(s.st, x, drops, sweep);
    if !Guarded(s.st, x) { ConsideredLater(start, x, |s.st.rules|); }
    if k < |start.actions| {
      assert q.actions[k] == start.actions[k];
      if k < |drops| { assert drops[k] in drops; } else { assert sweep[k - |drops|] in sweep; }
    } else {
      ConsideredOffs(start, x, |s.st.rules|, k);
      assert forall m :: 0 <= m < |s.st.rules| ==> Fires(start.st, x, m) == Fires(s.st, x, m);
    }
  }

  lemma {:induction false} ConsideredOffs(p: Progress, x: Inputs, n: nat, k: nat)
    requires n <= |p.st.rules| && WellShaped(p.st, x)
    requires |p.actions| <= k < |Considered(p, x, n).actions| && !Considered(p, x, n).actions[k].on
    ensures OffAmong(p.st, x, n, Considered(p, x, n).actions[k].relay)
    decreases n
  {
    if n > 0 {
      var q := Considered(p, x, n - 1);
      assert Fires(q.st, x, n - 1) == Fires(p.st, x, n - 1);
      if k < |q.actions| {
        assert Considered(p, x, n).actions[k] == q.actions[k];
        ConsideredOffs(p, x, n - 1, k);
      }
    }
  }

  /** So, for every fail-safe drop of every run: an ON can come within the
      cooldown of it if and only if a rule switches the channel off in the same
      evaluation, a moment before the drop was stamped, and a rule can switch it
      on. */
  lemma EarlyAfterDrop(s0: Logged, before: seq<Step>, s: Logged, x: Inputs, drops: seq<int>, sweep: seq<int>, k: nat)
    requires Reached(s0, before, s) && Happens(s, Evaluation(x, drops, sweep)) && k < |drops|
    ensures var t := Next(s, Evaluation(x, drops, sweep));
      && |s.log| + k < |t.log| && t.log[|s.log| + k] == Action(drops[k], false, x.revertAt)
      && (CanComeEarly(t, |s.log| + k) <==> Undercut(s.st, x, drops[k]) && SwitchesOn(s.st, drops[k]))
  {
    var e := Evaluation(x, drops, sweep);
    var t := Next(s, e);
    var i := |s.log| + k;
    RunSound(s0, before, s);
    StepLater(s, e);
    DropLogged(s, x, drops, sweep, k);
    ReachesOn(s0, before, s, e);
    StepSound(s, e);
    ForgottenExact(s, x, drops, sweep, i);
    EarlyOnExact(s0, before + [e], t, i);
    assert t.log[..|t.log|] == t.log;
    OffHasStamp(t.log, i);
    SameSwitches(s.st, t.st, drops[k]);
  }

  lemma DropLogged(s: Logged, x: Inputs, drops: seq<int>, sweep: seq<int>, k: nat)
    requires Happens(s, Evaluation(x, drops, sweep)) && k < |drops|
    ensures var t := Next(s, Evaluation(x, drops, sweep));
      |s.log| + k < |t.log| && t.log[|s.log| + k] == Action(drops[k], false, x.revertAt)
  {
    var start := Progress(LetGo(s.st, x), Released(x, drops, sweep), map[]);
    var q := Evaluated(s.st, x, drops, sweep);
    if !Guarded(s.st, x) { ConsideredLater(start, x, |s.st.rules|); }
    assert q.actions[k] == start.actions[k];
  }

  /** An ORP and a pH rule that switch relay 1 on, and a TDS rule that switches
      it off. */
  function ThreeRules(cooldown: nat, lastOff: map<int, int>, suspended: set<string>, pending: set<int>): State {
    State([Rule("orp_mv", Gt, 1, true, 0), Rule("tds_ppm", Gt, 1, false, 0), Rule("ph", Gt, 1, true, 0)],
          Policies(Always, cooldown, false), map[], lastOff, suspended, pending)
  }

  function Reading(sensor: string, now: int, revertAt: int, at: int): Inputs {
    Inputs({}, map[sensor := 2.0], [Some(1.0), Some(1.0), Some(1.0)], [true, true, true], 0, now, revertAt, [at, at, at])
  }

  lemma ProbeLost(cooldown: nat)
    ensures Next(Logged(ThreeRules(cooldown, map[], {}, {}), [], 0), Suspension({"orp"}))
         == Logged(ThreeRules(cooldown, map[], {"orp_mv"}, {1}), [], 0)
  {
    var st, sensors := ThreeRules(cooldown, map[], {}, {}), {"orp"};
    assert ColumnOf("orp") == "orp_mv";
    var columns := set x | x in sensors :: ColumnOf(x);
    assert columns == {"orp_mv"};
    assert st.rules[0] in st.rules;
    assert DrivenBy(st.rules, columns) == {1};
  }

  lemma DroppedThenOff(cooldown: nat)
    ensures var s := Logged(ThreeRules(cooldown, map[], {"orp_mv"}, {1}), [], 0);
      var e := Evaluation(Reading("tds_ppm", 0, 1, 1), [1], []);
      Happens(s, e) && Next(s, e)
        == Logged(ThreeRules(cooldown, map[1 := 0], {"orp_mv"}, {}), [Action(1, false, 1), Action(1, false, 0)], 1)
  {
    var st, x := ThreeRules(cooldown, map[], {"orp_mv"}, {1}), Reading("tds_ppm", 0, 1, 1);
    var start := Progress(LetGo(st, x), Released(x, [1], []), map[]);
    ThirdOf(start, x);
    assert Expired(st, x) == {} && Dropped(st, x) == {1};
    assert start.actions == [Action(1, false, 1)];
    assert LetGo(st, x) == ThreeRules(cooldown, map[1 := 1], {"orp_mv"}, {});
  }

  lemma ThenOn(cooldown: nat, log: seq<Action>)
    requires cooldown > 0
    ensures var s := Logged(ThreeRules(cooldown, map[1 := 0], {"orp_mv"}, {}), log, 1);
      var e := Evaluation(Reading("ph", 1, 1, cooldown), [], []);
      Happens(s, e) && Next(s, e).log == log + [Action(1, true, cooldown)]
  {
    var st, x := ThreeRules(cooldown, map[1 := 0], {"orp_mv"}, {}), Reading("ph", 1, 1, cooldown);
    var start := Progress(LetGo(st, x), Released(x, [], []), map[]);
    ThirdOf(start, x);
    assert Expired(st, x) == {} && Dropped(st, x) == {};
    assert start.actions == [];
    assert LetGo(st, x) == st;
  }

  /** Such a run: the ORP probe is suspended, its channel is dropped at 1, the TDS
      rule's OFF of the same evaluation is stamped 0, and the pH rule switches the
      channel on at `cooldown`, one too early for the drop. */
  lemma EarlyOnHappens(cooldown: nat) returns (s: Logged, steps: seq<Step>, t: Logged)
    requires cooldown > 0
    ensures Reached(s, steps, t) && s.st.policies.cooldown == cooldown
    ensures t.log == [Action(1, false, 1), Action(1, false, 0), Action(1, true, cooldown)]
  {
    var offs := [Action(1, false, 1), Action(1, false, 0)];
    s := Logged(ThreeRules(cooldown, map[], {}, {}), [], 0);
    ProbeLost(cooldown);
    DroppedThenOff(cooldown);
    ThenOn(cooldown, offs);
    steps, t := Chain(s, Suspension({"orp"}), Logged(ThreeRules(cooldown, map[], {"orp_mv"}, {1}), [], 0),
                      Evaluation(Reading("tds_ppm", 0, 1, 1), [1], []),
                      Logged(ThreeRules(cooldown, map[1 := 0], {"orp_mv"}, {}), offs, 1),
                      Evaluation(Reading("ph", 1, 1, cooldown), [], []));
    assert offs + [Action(1, true, cooldown)] == [Action(1, false, 1), Action(1, false, 0), Action(1, true, cooldown)];
  }

  lemma Chain(s: Logged, a: Step, s1: Logged, b: Step, s2: Logged, c: Step) returns (steps: seq<Step>, t: Logged)
    requires Happens(s, a) && Next(s, a) == s1 && Happens(s1, b) && Next(s1, b) == s2 && Happens(s2, c)
    ensures Reaches(s, steps, t) && t == Next(s2, c)
  {
    t := Next(s2, c);
    ThreeSteps(s, a, b, c);
    steps := [a, b, c];
  }

  lemma ThirdOf(p: Progress, x: Inputs)
    requires |p.st.rules| == 3 && WellShaped(p.st, x)
    ensures Considered(p, x, |p.st.rules|) == Consider(Consider(Consider(p, x, 0), x, 1), x, 2)
  {
    var n := |p.st.rules|;
    assert Considered(p, x, n - 3) == p;
    assert Considered(p, x, n - 2) == Consider(p, x, 0);
    assert Considered(p, x, n - 1) == Consider(Consider(p, x, 0), x, 1);
  }
}
