/** The threshold rules engine. Thresholds arrive resolved (the lookup of a
    learned baseline is an input), and so does the hourly budget's verdict. */
module Rules {
  import opened Wrappers
  import opened Relay

  datatype Operator = Gt | Lt | Ge | Le | Eq | Unrecognised

  /** `on` is whether the rule's action is "on". */
  datatype Rule = Rule(sensor: string, op: Operator, relay: int, on: bool, duration: int)

  predicate Compares(op: Operator, a: real, b: real) {
    match op
    case Gt => a > b
    case Lt => a < b
    case Ge => a >= b
    case Le => a <= b
    case Eq => (if a >= b then a - b else b - a) < 0.01
    case Unrecognised => false
  }

  // ---- Policies -----------------------------------------------------------------

  /** A window from one minute of the day to another; it may run over
      midnight. */
  datatype Schedule = Always | Window(start: int, end: int)

  /** The time of day is read in microseconds. */
  const MINUTE := 60_000_000

  predicate InSchedule(s: Schedule, time: int) {
    match s
    case Always => true
    case Window(start, end) =>
      if start <= end then MINUTE * start <= time <= MINUTE * end
      else time >= MINUTE * start || time <= MINUTE * end
  }

  datatype Policies = Policies(schedule: Schedule, cooldown: int, manualOverride: bool)

  // ---- State and inputs -----------------------------------------------------------

  datatype State = State(rules: seq<Rule>, policies: Policies, timers: map<int, int>, lastOff: map<int, int>,
                         suspended: set<string>, pending: set<int>)

  /** One evaluation's inputs. `readAt[i]` is the clock when rule `i` is
      checked for cooldown, `revertAt` when a fail-safe drop is recorded. */
  datatype Inputs = Inputs(reserved: set<int>, values: map<string, real>, thresholds: seq<Option<real>>,
                           budget: seq<bool>, timeOfDay: int, now: int, revertAt: int, readAt: seq<int>)

  ghost predicate Fits(st: State, x: Inputs) {
    && |x.thresholds| == |x.budget| == |x.readAt| == |st.rules|
    && x.now <= x.revertAt
    && forall i :: 0 <= i < |x.readAt| ==> x.revertAt <= x.readAt[i]
  }

  /** An action issued, with the time that was recorded (OFF) or checked (ON). */
  datatype Action = Action(relay: int, on: bool, at: int)

  // ---- Suspension ------------------------------------------------------------------

  function ColumnOf(sensor: string): string {
    if sensor == "tds" then "tds_ppm"
    else if sensor == "turbidity" then "turbidity_ntu"
    else if sensor == "temperature" then "temp_c"
    else if sensor == "orp" then "orp_mv"
    else if sensor == "chlorine" then "chlorine_mgl"
    else if sensor == "conductivity" then "conductivity_uscm"
    else if sensor == "salinity" then "salinity_ppt"
    else if sensor == "flow" then "flow_rate_gpm"
    else sensor
  }

  function DrivenBy(rules: seq<Rule>, columns: set<string>): set<int> {
    set r | r in rules && r.sensor in columns :: r.relay
  }

  /** Only newly suspended columns queue a drop. */
  function Suspend(st: State, sensors: set<string>): State {
    var columns := set s | s in sensors :: ColumnOf(s);
    st.(pending := st.pending + DrivenBy(st.rules, columns - st.suspended), suspended := columns)
  }

  // ---- Letting go --------------------------------------------------------------------

  function Offs(channels: seq<int>, at: int): (a: seq<Action>)
    ensures |a| == |channels|
    ensures forall i :: 0 <= i < |a| ==> a[i] == Action(channels[i], false, at)
  {
    seq(|channels|, i requires 0 <= i < |channels| => Action(channels[i], false, at))
  }

  /** The channels of a newly suspended sensor, and those whose duration is
      over; never one that another engine owns. */
  function Dropped(st: State, x: Inputs): set<int> { st.pending - x.reserved }

  function Expired(st: State, x: Inputs): set<int> {
    set ch | ch in st.timers && ch !in x.reserved && ch !in st.pending && x.now >= st.timers[ch]
  }

  /** The order a set or dictionary is walked in: each element once. */
  ghost predicate Lists(q: seq<int>, s: set<int>) {
    && (forall ch :: ch in q <==> ch in s)
    && (forall i, j :: 0 <= i < j < |q| ==> q[i] != q[j])
  }

  function Stamped(m: map<int, int>, channels: set<int>, at: int): map<int, int> {
    map ch | ch in m.Keys + channels :: if ch in channels then at else m[ch]
  }

  function LetGo(st: State, x: Inputs): State {
    st.(pending := {},
        timers := st.timers - x.reserved - Dropped(st, x) - Expired(st, x),
        lastOff := Stamped(Stamped(st.lastOff, Dropped(st, x), x.revertAt), Expired(st, x), x.now))
  }

  // ---- The rules ---------------------------------------------------------------------

  /** Whether rule `i` is in force and its comparison holds. */
  predicate Fires(st: State, x: Inputs, i: nat)
    requires i < |st.rules| && i < |x.thresholds|
  {
    var r := st.rules[i];
    r.relay !in x.reserved && r.sensor !in st.suspended && r.sensor in x.values &&
    x.thresholds[i].Some? && Compares(r.op, x.values[r.sensor], x.thresholds[i].value)
  }

  predicate InCooldown(st: State, relay: int, at: int) {
    st.policies.cooldown > 0 && relay in st.lastOff && at - st.lastOff[relay] < st.policies.cooldown
  }

  /** Part-way through the rules: the state, the actions so far, and the
      durations to hand to the relay controller. */
  datatype Progress = Progress(st: State, actions: seq<Action>, durations: map<int, int>)

  function Consider(p: Progress, x: Inputs, i: nat): Progress
    requires i < |p.st.rules| && i < |x.thresholds| && i < |x.budget| && i < |x.readAt|
  {
    var st, r := p.st, p.st.rules[i];
    if !Fires(st, x, i) then p
    else if !r.on then
      p.(st := st.(lastOff := st.lastOff[r.relay := x.now]), actions := p.actions + [Action(r.relay, false, x.now)])
    else if InCooldown(st, r.relay, x.readAt[i]) || !x.budget[i] then p
    else
      var q := p.(actions := p.actions + [Action(r.relay, true, x.readAt[i])]);
      if r.duration > 0 then
        q.(st := st.(timers := st.timers[r.relay := x.now + r.duration]), durations := p.durations[r.relay := r.duration])
      else q
  }

  function Considered(p: Progress, x: Inputs, n: nat): (q: Progress)
    requires n <= |p.st.rules| && |x.thresholds| == |x.budget| == |x.readAt| == |p.st.rules|
    ensures q.st.rules == p.st.rules && q.st.policies == p.st.policies && q.st.suspended == p.st.suspended
    ensures q.st.pending == p.st.pending
  {
    if n == 0 then p else Consider(Considered(p, x, n - 1), x, n - 1)
  }

  predicate Guarded(st: State, x: Inputs) {
    !InSchedule(st.policies.schedule, x.timeOfDay) || st.policies.manualOverride
  }

  /** The OFFs of letting go, each at the time it is stamped with. */
  function Released(x: Inputs, drops: seq<int>, sweep: seq<int>): seq<Action> {
    Offs(drops, x.revertAt) + Offs(sweep, x.now)
  }

  /** `drops` and `sweep` are the orders in which the channels to let go of are
      walked. */
  function Evaluated(st: State, x: Inputs, drops: seq<int>, sweep: seq<int>): Progress
    requires |x.thresholds| == |x.budget| == |x.readAt| == |st.rules|
  {
    var start := Progress(LetGo(st, x), Released(x, drops, sweep), map[]);
    if Guarded(st, x) then start else Considered(start, x, |st.rules|)
  }

  // ---- What actions do to the coils ----------------------------------------------------

  /** A channel outside 1-4 is refused by the controller and skipped. */
  function Issue(c: Coils, a: Action, durations: map<int, int>, now: int): Coils {
    if !(1 <= a.relay <= 4) then c
    else
      var d := c.Set(a.relay, a.on, false, now);
      if a.on && a.relay in durations then d.ArmAutoOff(a.relay, durations[a.relay], now) else d
  }

  function IssueAll(c: Coils, actions: seq<Action>, durations: map<int, int>, now: int): Coils
    decreases |actions|
  {
    if actions == [] then c
    else Issue(IssueAll(c, actions[..|actions| - 1], durations, now), actions[|actions| - 1], durations, now)
  }

  // ---- Downlinks --------------------------------------------------------------------------

  /** A relay command on FPort 100: channel, state, big-endian duration. */
  datatype Command = NoCommand | Command(channel: Channel, state: bool, duration: nat)

  function ParseDownlink(fport: int, payload: seq<nat>): Command {
    if fport != 100 || |payload| < 2 || !(1 <= payload[0] <= 4) then NoCommand
    else Command(payload[0], payload[1] != 0, if |payload| >= 4 then payload[2] * 256 + payload[3] else 0)
  }

  /** What a downlink does; refused when another engine owns the channel. */
  function Downlink(st: State, c: Coils, cmd: Command, reserved: set<int>, now: int): (State, Coils) {
    if cmd.NoCommand? || cmd.channel in reserved then (st, c)
    else
      var d := c.Set(cmd.channel, cmd.state, false, now);
      if cmd.state && cmd.duration > 0 then
        (st.(timers := st.timers[cmd.channel := now + cmd.duration]), d.ArmAutoOff(cmd.channel, cmd.duration, now))
      else (st, d)
  }

  // ---- The engine ---------------------------------------------------------------------------

  function SetOf(q: seq<int>): set<int> { set ch | ch in q }

  lemma SetOfAll(q: seq<int>, s: set<int>)
    requires Lists(q, s)
    ensures q[..|q|] == q && SetOf(q) == s
  {
    forall ch ensures ch in SetOf(q) <==> ch in s {
      assert ch in q <==> ch in s;
    }
  }

  lemma WalkOn(timers: map<int, int>, stamps: map<int, int>, q: seq<int>, i: nat, at: int)
    requires i < |q|
    ensures timers - SetOf(q[..i + 1]) == timers - SetOf(q[..i]) - {q[i]}
    ensures Stamped(stamps, SetOf(q[..i + 1]), at) == Stamped(stamps, SetOf(q[..i]), at)[q[i] := at]
  {
    assert q[..i + 1] == q[..i] + [q[i]];
    assert SetOf(q[..i + 1]) == SetOf(q[..i]) + {q[i]};
  }

  /** A set's elements in some order. */
  method Walk(s: set<int>) returns (q: seq<int>)
    ensures Lists(q, s)
  {
    q := [];
    var left := s;
    while left != {}
      invariant left <= s && Lists(q, s - left)
      decreases |left|
    {
      assert (forall ch :: ch !in left) ==> left == {};
      var ch :| ch in left;
      assert s - (left - {ch}) == (s - left) + {ch};
      q := q + [ch];
      left := left - {ch};
    }
    assert s - {} == s;
  }

  class RulesEngine {
    const relays: RelayController
    var rules: seq<Rule>
    var policies: Policies
    var timers: map<int, int>
    var lastOff: map<int, int>
    var suspended: set<string>
    var pending: set<int>

    function View(): State
      reads this
    {
      State(rules, policies, timers, lastOff, suspended, pending)
    }

    constructor (relays: RelayController, rules: seq<Rule>, policies: Policies)
      ensures this.relays == relays && View() == State(rules, policies, map[], map[], {}, {})
    {
      this.relays, this.rules, this.policies := relays, rules, policies;
      timers, lastOff, suspended, pending := map[], map[], {}, {};
    }

    method SetSuspendedSensors(sensors: set<string>)
      modifies this
      ensures View() == Suspend(old(View()), sensors)
    {
      var columns := set s | s in sensors :: ColumnOf(s);
      var newly := columns - suspended;
      if newly != {} {
        pending := pending + DrivenBy(rules, newly);
      }
      suspended := columns;
    }

    /** Each of these off, its timer gone, the time noted. */
    method ShutOff(channels: seq<int>, at: int) returns (actions: seq<Action>)
      modifies this`timers, this`lastOff
      ensures actions == Offs(channels, at) && timers == old(timers) - SetOf(channels)
      ensures lastOff == Stamped(old(lastOff), SetOf(channels), at)
    {
      actions := [];
      ghost var before, stamps := timers, lastOff;
      for i := 0 to |channels|
        modifies this`timers, this`lastOff
        invariant actions == Offs(channels[..i], at)
        invariant timers == before - SetOf(channels[..i])
        invariant lastOff == Stamped(stamps, SetOf(channels[..i]), at)
      {
        var ch := channels[i];
        actions := actions + [Action(ch, false, at)];
        WalkOn(before, stamps, channels, i, at);
        lastOff := lastOff[ch := at];
        timers := timers - {ch};
      }
      assert channels[..|channels|] == channels;
    }

    /** Drops the channels of newly suspended sensors. */
    method RevertSuspended(reserved: set<int>, at: int) returns (actions: seq<Action>, ghost order: seq<int>)
      modifies this`pending, this`timers, this`lastOff
      ensures Lists(order, old(pending) - reserved) && actions == Offs(order, at)
      ensures pending == {} && timers == old(timers) - (old(pending) - reserved)
      ensures lastOff == Stamped(old(lastOff), old(pending) - reserved, at)
    {
      pending := pending - reserved;
      var channels := Walk(pending);
      order := channels;
      actions := ShutOff(channels, at);
      SetOfAll(channels, pending);
      pending := {};
    }

    /** The auto-shutoff sweep. A timer on an owned channel is forgotten. */
    method ExpireTimers(reserved: set<int>, now: int) returns (actions: seq<Action>, ghost order: seq<int>)
      modifies this`timers, this`lastOff
      ensures var due := Due(old(timers), reserved, now);
        Lists(order, due) && actions == Offs(order, now) &&
        timers == old(timers) - reserved - due && lastOff == Stamped(old(lastOff), due, now)
    {
      ghost var all := timers;
      timers := timers - reserved;
      var due := set ch | ch in timers && now >= timers[ch];
      assert due == Due(all, reserved, now);
      var channels := Walk(due);
      order := channels;
      actions := ShutOff(channels, now);
      SetOfAll(channels, due);
    }

    method Apply(actions: seq<Action>, durations: map<int, int>, now: int)
      requires relays.Valid()
      modifies relays
      ensures relays.Valid() && relays.State() == IssueAll(old(relays.State()), actions, durations, now)
    {
      ghost var before := relays.State();
      for i := 0 to |actions|
        invariant relays.Valid() && relays.State() == IssueAll(before, actions[..i], durations, now)
      {
        var a := actions[i];
        var ok := relays.Set(a.relay, a.on, false, now, true);
        if ok && a.on && a.relay in durations {
          var _ := relays.ArmAutoOff(a.relay, durations[a.relay], now);
        }
        assert actions[..i + 1][..i] == actions[..i];
      }
      assert actions[..|actions|] == actions;
    }

    method Evaluate(x: Inputs) returns (actions: seq<Action>, ghost drops: seq<int>, ghost sweep: seq<int>)
      requires relays.Valid() && |x.thresholds| == |x.budget| == |x.readAt| == |rules|
      modifies this`timers, this`lastOff, this`pending, relays
      ensures relays.Valid()
      ensures Lists(drops, Dropped(old(View()), x)) && Lists(sweep, Expired(old(View()), x))
      ensures var q := Evaluated(old(View()), x, drops, sweep);
        View() == q.st && actions == q.actions &&
        relays.State() == IssueAll(old(relays.State()), actions, q.durations, x.now)
    {
      ghost var st := View();
      var offs, more;
      offs, drops := RevertSuspended(x.reserved, x.revertAt);
      more, sweep := ExpireTimers(x.reserved, x.now);
      actions := offs + more;
      SweepIsExpired(st, x);
      assert View() == LetGo(st, x);
      var durations := map[];
      if InSchedule(policies.schedule, x.timeOfDay) && !policies.manualOverride {
        ghost var start := Progress(View(), actions, map[]);
        for i := 0 to |rules|
          modifies this`timers, this`lastOff
          invariant Progress(View(), actions, durations) == Considered(start, x, i)
        {
          var r := rules[i];
          if r.relay in x.reserved || r.sensor in suspended || r.sensor !in x.values || x.thresholds[i].None? {
            continue;
          }
          if Compares(r.op, x.values[r.sensor], x.thresholds[i].value) {
            if r.on {
              if InCooldown(View(), r.relay, x.readAt[i]) || !x.budget[i] {
                continue;
              }
            }
            actions := actions + [Action(r.relay, r.on, if r.on then x.readAt[i] else x.now)];
            if r.on && r.duration > 0 {
              timers := timers[r.relay := x.now + r.duration];
              durations := durations[r.relay := r.duration];
            }
            if !r.on {
              lastOff := lastOff[r.relay := x.now];
            }
          }
        }
      }
      Apply(actions, durations, x.now);
    }

    method ProcessDownlink(fport: int, payload: seq<nat>, reserved: set<int>, now: int) returns (accepted: bool)
      requires relays.Valid()
      modifies this`timers, relays
      ensures relays.Valid()
      ensures var cmd := ParseDownlink(fport, payload);
        (View(), relays.State()) == Downlink(old(View()), old(relays.State()), cmd, reserved, now) &&
        (accepted <==> cmd.Command? && cmd.channel !in reserved)
    {
      if fport != 100 || |payload| < 2 {
        return false;
      }
      var channel, state := payload[0], payload[1] != 0;
      var duration := if |payload| >= 4 then payload[2] * 256 + payload[3] else 0;
      if !(1 <= channel <= 4) {
        return false;
      }
      if channel in reserved {
        return false;
      }
      var ok := relays.Set(channel, state, false, now, true);
      if state && duration > 0 {
        timers := timers[channel := now + duration];
        var _ := relays.ArmAutoOff(channel, duration, now);
      }
      accepted := true;
    }
  }

  function Due(timers: map<int, int>, reserved: set<int>, now: int): set<int> {
    set ch | ch in timers && ch !in reserved && now >= timers[ch]
  }

  lemma SweepIsExpired(st: State, x: Inputs)
    ensures Due(st.timers - Dropped(st, x), x.reserved, x.now) == Expired(st, x)
    ensures st.timers - Dropped(st, x) - x.reserved - Expired(st, x) == LetGo(st, x).timers
  {}
}
