/** What one evaluation does, each rule judged by itself: which comparisons
    hold, when the schedule lets rules run, which actions are issued in which
    order, what is remembered, and where the coils end up. */
module RuleMeaning {
  import opened Wrappers
  import opened Relay
  import opened Rules
  import opened RuleRuns

  const DAY := 86_400_000_000

  /** Going round the clock from the window's start, the time comes no later
      than the window's end. */
  predicate InWindow(s: Schedule, time: int) {
    s.Always? || (time - MINUTE * s.start) % DAY <= (MINUTE * s.end - MINUTE * s.start) % DAY
  }

  predicate OfDay(s: Schedule, time: int) {
    0 <= time < DAY && (s.Window? ==> 0 <= s.start < 1440 && 0 <= s.end < 1440)
  }

  lemma ScheduleMeans(s: Schedule, time: int)
    requires OfDay(s, time)
    ensures InSchedule(s, time) <==> InWindow(s, time)
  {}

  predicate Holds(op: Operator, value: real, limit: real) {
    || (op == Gt && value > limit)
    || (op == Lt && value < limit)
    || (op == Ge && value >= limit)
    || (op == Le && value <= limit)
    || (op == Eq && -0.01 < value - limit < 0.01)
  }

  /** Rule `i` is in force and what it watches for is so. */
  predicate Calls(st: State, x: Inputs, i: nat)
    requires i < |st.rules| && i < |x.thresholds|
  {
    var r := st.rules[i];
    && r.relay !in x.reserved && r.sensor !in st.suspended
    && r.sensor in x.values && x.thresholds[i].Some?
    && Holds(r.op, x.values[r.sensor], x.thresholds[i].value)
  }

  /** An earlier OFF rule calls for the channel. */
  predicate CalledOff(st: State, x: Inputs, n: nat, ch: int)
    requires n <= |st.rules| && WellShaped(st, x)
  {
    exists k :: 0 <= k < n && Calls(st, x, k) && !st.rules[k].on && st.rules[k].relay == ch
  }

  /** When the channel last went off, as the first `n` rules leave it: by one
      of them, by its duration running out, by its probe's suspension, or
      before. */
  function LastOff(st: State, x: Inputs, n: nat, ch: int): Option<int>
    requires n <= |st.rules| && WellShaped(st, x)
  {
    if CalledOff(st, x, n, ch) then Some(x.now)
    else if ch in st.pending && ch !in x.reserved then Some(x.revertAt)
    else if ch in st.timers && ch !in x.reserved && x.now >= st.timers[ch] && ch !in st.pending then Some(x.now)
    else if ch in st.lastOff then Some(st.lastOff[ch])
    else None
  }

  predicate Resting(st: State, x: Inputs, i: nat)
    requires i < |st.rules| && WellShaped(st, x)
  {
    var off := LastOff(st, x, i, st.rules[i].relay);
    st.policies.cooldown > 0 && off.Some? && x.readAt[i] - off.value < st.policies.cooldown
  }

  /** Rule `i` acts: an OFF whenever it calls, an ON only with the channel
      rested and budget left. */
  predicate Acts(st: State, x: Inputs, i: nat)
    requires i < |st.rules| && WellShaped(st, x)
  {
    Calls(st, x, i) && (!st.rules[i].on || (!Resting(st, x, i) && x.budget[i]))
  }

  /** The actions of the first `n` rules, in order. */
  function Asked(st: State, x: Inputs, n: nat): seq<Action>
    requires n <= |st.rules| && WellShaped(st, x)
  {
    if n == 0 then []
    else
      Asked(st, x, n - 1) +
      if Acts(st, x, n - 1)
      then [Action(st.rules[n - 1].relay, st.rules[n - 1].on, if st.rules[n - 1].on then x.readAt[n - 1] else x.now)]
      else []
  }

  /** The duration the last bounded ON among the first `n` rules gives the
      channel. */
  function Lasting(st: State, x: Inputs, n: nat, ch: int): Option<int>
    requires n <= |st.rules| && WellShaped(st, x)
  {
    if n == 0 then None
    else
      var r := st.rules[n - 1];
      if r.relay == ch && r.on && r.duration > 0 && Acts(st, x, n - 1) then Some(r.duration) else Lasting(st, x, n - 1, ch)
  }

  /** What the first `n` rules, from `st` with everything let go, come to. */
  ghost predicate Comes(st: State, x: Inputs, released: seq<Action>, n: nat, q: Progress)
    requires n <= |st.rules| && WellShaped(st, x)
  {
    && q.actions == released + Asked(st, x, n)
    && q.st == st.(pending := {}, timers := q.st.timers, lastOff := q.st.lastOff)
    && (forall ch :: (if ch in q.st.lastOff then Some(q.st.lastOff[ch]) else None) == LastOff(st, x, n, ch))
    && (forall ch :: (if ch in q.durations then Some(q.durations[ch]) else None) == Lasting(st, x, n, ch))
    && (forall ch :: (if ch in q.st.timers then Some(q.st.timers[ch]) else None) == Remaining(st, x, n, ch))
  }

  /** When the channel's duration will be over. */
  function Remaining(st: State, x: Inputs, n: nat, ch: int): Option<int>
    requires n <= |st.rules| && WellShaped(st, x)
  {
    if Lasting(st, x, n, ch).Some? then Some(x.now + Lasting(st, x, n, ch).value)
    else if ch in st.timers && ch !in x.reserved && ch !in st.pending && x.now < st.timers[ch] then Some(st.timers[ch])
    else None
  }

  lemma LetGoComes(st: State, x: Inputs, released: seq<Action>)
    requires WellShaped(st, x)
    ensures Comes(st, x, released, 0, Progress(LetGo(st, x), released, map[]))
  {}

  lemma FiresCalls(st: State, x: Inputs, q: State, i: nat)
    requires i < |st.rules| && WellShaped(st, x) && q.rules == st.rules && q.suspended == st.suspended
    ensures Fires(q, x, i) <==> Calls(st, x, i)
  {}

  lemma CooldownRests(st: State, x: Inputs, q: State, i: nat)
    requires i < |st.rules| && WellShaped(st, x) && q.policies == st.policies
    requires var ch := st.rules[i].relay;
      (if ch in q.lastOff then Some(q.lastOff[ch]) else None) == LastOff(st, x, i, ch)
    ensures InCooldown(q, st.rules[i].relay, x.readAt[i]) <==> Resting(st, x, i)
  {}

  /** Considering a rule does nothing unless it acts. */
  lemma ConsiderActs(st: State, x: Inputs, n: nat, q: Progress)
    requires n < |st.rules| && WellShaped(st, x) && q.st.rules == st.rules && q.st.suspended == st.suspended
    requires q.st.policies == st.policies
    requires var ch := st.rules[n].relay;
      (if ch in q.st.lastOff then Some(q.st.lastOff[ch]) else None) == LastOff(st, x, n, ch)
    ensures var r := st.rules[n];
      Consider(q, x, n) ==
        if !Acts(st, x, n) then q
        else if !r.on then
          Progress(q.st.(lastOff := q.st.lastOff[r.relay := x.now]), q.actions + [Action(r.relay, false, x.now)], q.durations)
        else if r.duration > 0 then
          Progress(q.st.(timers := q.st.timers[r.relay := x.now + r.duration]), q.actions + [Action(r.relay, true, x.readAt[n])],
                   q.durations[r.relay := r.duration])
        else q.(actions := q.actions + [Action(r.relay, true, x.readAt[n])])
  {
    FiresCalls(st, x, q.st, n);
    CooldownRests(st, x, q.st, n);
  }

  lemma LastOffStep(st: State, x: Inputs, n: nat, ch: int)
    requires n < |st.rules| && WellShaped(st, x)
    ensures LastOff(st, x, n + 1, ch) ==
      if Acts(st, x, n) && !st.rules[n].on && st.rules[n].relay == ch then Some(x.now) else LastOff(st, x, n, ch)
  {}

  lemma ConsiderComes(st: State, x: Inputs, released: seq<Action>, n: nat, q: Progress)
    requires n < |st.rules| && WellShaped(st, x) && Comes(st, x, released, n, q)
    ensures Comes(st, x, released, n + 1, Consider(q, x, n))
  {
    var r, p := st.rules[n], Consider(q, x, n);
    ConsiderActs(st, x, n, q);
    Regroup(released, Asked(st, x, n), [Action(r.relay, r.on, if r.on then x.readAt[n] else x.now)]);
    forall ch
      ensures (if ch in p.st.lastOff then Some(p.st.lastOff[ch]) else None) == LastOff(st, x, n + 1, ch)
      ensures (if ch in p.durations then Some(p.durations[ch]) else None) == Lasting(st, x, n + 1, ch)
      ensures (if ch in p.st.timers then Some(p.st.timers[ch]) else None) == Remaining(st, x, n + 1, ch)
    {
      LastOffStep(st, x, n, ch);
      assert (if ch in q.durations then Some(q.durations[ch]) else None) == Lasting(st, x, n, ch);
      assert (if ch in q.st.timers then Some(q.st.timers[ch]) else None) == Remaining(st, x, n, ch);
    }
  }

  lemma {:induction false} ConsideredComes(st: State, x: Inputs, released: seq<Action>, n: nat)
    requires n <= |st.rules| && WellShaped(st, x)
    ensures Comes(st, x, released, n, Considered(Progress(LetGo(st, x), released, map[]), x, n))
    decreases n
  {
    if n == 0 {
      LetGoComes(st, x, released);
    } else {
      ConsideredComes(st, x, released, n - 1);
      ConsiderComes(st, x, released, n - 1, Considered(Progress(LetGo(st, x), released, map[]), x, n - 1));
    }
  }

  lemma EvaluatedComes(st: State, x: Inputs, drops: seq<int>, sweep: seq<int>)
    requires WellShaped(st, x) && OfDay(st.policies.schedule, x.timeOfDay)
    ensures var runs := InWindow(st.policies.schedule, x.timeOfDay) && !st.policies.manualOverride;
      Comes(st, x, Released(x, drops, sweep), if runs then |st.rules| else 0, Evaluated(st, x, drops, sweep))
  {
    ScheduleMeans(st.policies.schedule, x.timeOfDay);
    LetGoComes(st, x, Released(x, drops, sweep));
    ConsideredComes(st, x, Released(x, drops, sweep), |st.rules|);
  }

  /** One evaluation, whole: first the OFFs of suspended probes and elapsed
      durations, then, only in schedule and without override, each rule's own
      action in the order of the rules; and what is then remembered. */
  lemma EvaluationMeans(st: State, x: Inputs, drops: seq<int>, sweep: seq<int>)
    requires WellShaped(st, x) && OfDay(st.policies.schedule, x.timeOfDay)
    ensures var q := Evaluated(st, x, drops, sweep); var k := |drops| + |sweep|;
      var runs := InWindow(st.policies.schedule, x.timeOfDay) && !st.policies.manualOverride;
      && k <= |q.actions|
      && (forall i :: 0 <= i < |drops| ==> q.actions[i] == Action(drops[i], false, x.revertAt))
      && (forall i :: 0 <= i < |sweep| ==> q.actions[|drops| + i] == Action(sweep[i], false, x.now))
      && Comes(st, x, q.actions[..k], if runs then |st.rules| else 0, q)
  {
    EvaluatedComes(st, x, drops, sweep);
    var n := if InWindow(st.policies.schedule, x.timeOfDay) && !st.policies.manualOverride then |st.rules| else 0;
    OffsFirst(x, drops, sweep, Asked(st, x, n));
  }

  lemma OffsFirst(x: Inputs, drops: seq<int>, sweep: seq<int>, more: seq<Action>)
    ensures var all := Released(x, drops, sweep) + more; var k := |drops| + |sweep|;
      && k <= |all| && all[..k] == Released(x, drops, sweep)
      && (forall i :: 0 <= i < |drops| ==> all[i] == Action(drops[i], false, x.revertAt))
      && (forall i :: 0 <= i < |sweep| ==> all[|drops| + i] == Action(sweep[i], false, x.now))
  {}

  /** A rule alone on the unit, in force and with nothing in its way, acts if
      and only if its operator says so of the value and the limit. */
  lemma OneRule(st: State, x: Inputs, r: Rule, limit: real, drops: seq<int>, sweep: seq<int>)
    requires WellShaped(st, x) && st.rules == [r] && x.thresholds == [Some(limit)]
    requires r.relay !in x.reserved && r.sensor !in st.suspended && r.sensor in x.values
    requires OfDay(st.policies.schedule, x.timeOfDay) && InWindow(st.policies.schedule, x.timeOfDay)
    requires !st.policies.manualOverride && (r.on ==> !Resting(st, x, 0) && x.budget[0])
    ensures |drops| + |sweep| <= |Evaluated(st, x, drops, sweep).actions|
    ensures var own := Evaluated(st, x, drops, sweep).actions[|drops| + |sweep|..]; var v := x.values[r.sensor];
      var act := [Action(r.relay, r.on, if r.on then x.readAt[0] else x.now)];
      && (r.op == Gt ==> own == if v > limit then act else [])
      && (r.op == Lt ==> own == if v < limit then act else [])
      && (r.op == Ge ==> own == if v >= limit then act else [])
      && (r.op == Le ==> own == if v <= limit then act else [])
      && (r.op == Eq ==> own == if -0.01 < v - limit < 0.01 then act else [])
      && (r.op == Unrecognised ==> own == [])
  {
    EvaluationMeans(st, x, drops, sweep);
    assert Asked(st, x, 1) == if Acts(st, x, 0) then [Action(r.relay, r.on, if r.on then x.readAt[0] else x.now)] else [];
  }

  // ---- Where the coils end up -----------------------------------------------------

  predicate LastFor(actions: seq<Action>, k: nat, ch: int) {
    k < |actions| && actions[k].relay == ch && forall j :: k < j < |actions| ==> actions[j].relay != ch
  }

  /** The last action on a channel decides its coil, and an ON its timer, by
      the rule's duration and the ceiling; a channel without an action stays
      as it was. */
  lemma {:induction false} LastActionDecides(c: Coils, actions: seq<Action>, durations: map<int, int>, now: int, ch: Channel)
    ensures var d := IssueAll(c, actions, durations, now);
      && d.maxOn == c.maxOn
      && (forall k: nat :: LastFor(actions, k, ch) ==>
            (ch in d.on <==> actions[k].on) &&
            if actions[k].on then Bounded(d, ch, if ch in durations then durations[ch] else 0, now) else ch !in d.armed)
      && ((forall k :: 0 <= k < |actions| ==> actions[k].relay != ch) ==>
            SameAt(c, d, ch) && (ch in c.armed ==> d.armed[ch] == c.armed[ch]))
    decreases |actions|
  {
    if actions != [] {
      var n := |actions| - 1;
      var b, a := IssueAll(c, actions[..n], durations, now), actions[n];
      LastActionDecides(c, actions[..n], durations, now, ch);
      if 1 <= a.relay <= 4 {
        WriteObeyed(b, a.relay, a.on, if a.relay in durations then durations[a.relay] else 0, now);
      }
      forall k: nat | LastFor(actions, k, ch) ensures if k == n then a.relay == ch else LastFor(actions[..n], k, ch) {}
    }
  }

  // ---- Suspension -------------------------------------------------------------------

  /** The reading column each of the monitor's sensor names stands for. */
  const COLUMNS := map["tds" := "tds_ppm", "turbidity" := "turbidity_ntu", "temperature" := "temp_c", "orp" := "orp_mv",
                       "chlorine" := "chlorine_mgl", "conductivity" := "conductivity_uscm", "salinity" := "salinity_ppt",
                       "flow" := "flow_rate_gpm"]

  predicate Names(sensor: string, column: string) {
    column == if sensor in COLUMNS then COLUMNS[sensor] else sensor
  }

  /** Afterwards exactly the named columns are suspended, and the channels of
      rules on newly suspended ones have joined those to let go of. */
  lemma SuspensionMeans(st: State, sensors: set<string>)
    ensures var t := Suspend(st, sensors);
      && t == st.(suspended := t.suspended, pending := t.pending)
      && (forall column :: column in t.suspended <==> exists sensor :: sensor in sensors && Names(sensor, column))
      && (forall ch :: ch in t.pending <==>
            ch in st.pending ||
            exists i :: 0 <= i < |st.rules| && st.rules[i].relay == ch &&
                        st.rules[i].sensor in t.suspended && st.rules[i].sensor !in st.suspended)
  {
    var t := Suspend(st, sensors);
    forall sensor ensures Names(sensor, ColumnOf(sensor)) {}
    forall column ensures column in t.suspended <==> exists sensor :: sensor in sensors && Names(sensor, column) {}
    forall i | 0 <= i < |st.rules| ensures st.rules[i] in st.rules {}
  }
}
