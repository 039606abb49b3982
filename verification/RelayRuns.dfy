/** Runs of the relay controller under a clock: every call, every timer thread
    (live or long superseded), and the passing of time. */
module RelayRuns {
  import opened Relay

  datatype Event =
    | SetRequest(ch: Channel, state: bool, unbounded: bool)
    | ArmRequest(ch: Channel, duration: int)
    | TimerRuns(ch: Channel, id: nat)
    | TimerWriteFails(ch: Channel, id: nat)
    | EverythingOff
    | Wait(seconds: nat)

  /** `asked` is when a channel was last asked for: switched on, or given a
      duration. `bounded` are the channels whose on-period is not exempt. */
  datatype Clocked = Clocked(coils: Coils, now: int, asked: map<Channel, int>, bounded: set<Channel>)

  predicate Live(c: Coils, ch: Channel, id: nat) { ch in c.armed && c.armed[ch].id == id }

  /** Timers fire on time: the clock does not pass a due timer. */
  ghost predicate Enabled(s: Clocked, e: Event) {
    e.Wait? ==> forall ch :: ch in s.coils.armed ==> s.now + e.seconds <= s.coils.armed[ch].due
  }

  function Next(s: Clocked, e: Event): Clocked {
    match e
    case SetRequest(ch, state, unbounded) =>
      Clocked(s.coils.Set(ch, state, unbounded, s.now), s.now,
              if state then s.asked[ch := s.now] else s.asked,
              if state && !unbounded then s.bounded + {ch} else s.bounded - {ch})
    case ArmRequest(ch, duration) =>
      if s.coils.Granted(ch, duration) == 0 then s
      else Clocked(s.coils.ArmAutoOff(ch, duration, s.now), s.now, s.asked[ch := s.now], s.bounded + {ch})
    case TimerRuns(ch, id) => s.(coils := s.coils.Fire(ch, id))
    case TimerWriteFails(ch, id) =>
      if Live(s.coils, ch, id) then s.(coils := s.coils.Without(ch)) else s
    case EverythingOff => s.(coils := s.coils.AllOff())
    case Wait(seconds) => s.(now := s.now + seconds)
  }

  function Run(s: Clocked, es: seq<Event>): Clocked
    decreases |es|
  {
    if es == [] then s else Run(Next(s, es[0]), es[1..])
  }

  ghost predicate Possible(s: Clocked, es: seq<Event>)
    decreases |es|
  {
    es == [] || (Enabled(s, es[0]) && Possible(Next(s, es[0]), es[1..]))
  }

  /** No timer due to switch a coil off is let down by its pin. */
  predicate PinsObey(s: Clocked, es: seq<Event>)
    decreases |es|
  {
    es == [] ||
    ((es[0].TimerWriteFails? ==> !Live(s.coils, es[0].ch, es[0].id)) && PinsObey(Next(s, es[0]), es[1..]))
  }

  function Start(maxOn: int, now: int): Clocked {
    Clocked(Coils({}, map[], 0, maxOn), now, map[], {})
  }

  // ---- What every step keeps ----------------------------------------------

  lemma StepKeepsOk(s: Clocked, e: Event)
    requires s.coils.Ok()
    ensures Next(s, e).coils.Ok() && Next(s, e).coils.maxOn == s.coils.maxOn
    ensures s.coils.nextId <= Next(s, e).coils.nextId
  {}

  /** In every reachable state an armed timer means an energised coil, and no
      two armed timers are the same timer. */
  lemma {:induction false} RunKeepsOk(s: Clocked, es: seq<Event>)
    requires s.coils.Ok()
    ensures Run(s, es).coils.Ok() && Run(s, es).coils.maxOn == s.coils.maxOn
    ensures s.coils.nextId <= Run(s, es).coils.nextId
    decreases |es|
  {
    if es != [] {
      StepKeepsOk(s, es[0]);
      RunKeepsOk(Next(s, es[0]), es[1..]);
    }
  }

  /** Once a timer is no longer the one in the table it is inert for ever:
      whatever happens next, its running changes nothing. */
  lemma {:induction false} SupersededIsInert(s: Clocked, es: seq<Event>, ch: Channel, id: nat)
    requires s.coils.Ok() && id < s.coils.nextId && !Live(s.coils, ch, id)
    ensures Next(Run(s, es), TimerRuns(ch, id)) == Run(s, es)
    decreases |es|
  {
    if es != [] {
      StepKeepsOk(s, es[0]);
      SupersededIsInert(Next(s, es[0]), es[1..], ch, id);
    }
  }

  // ---- The ceiling ---------------------------------------------------------

  /** A bounded coil that is on has a timer armed, due no later than the
      ceiling after the last request, and the clock has not passed it. */
  ghost predicate Watched(s: Clocked, ch: Channel) {
    ch in s.coils.on && ch in s.bounded ==>
      ch in s.asked && ch in s.coils.armed &&
      s.now <= s.coils.armed[ch].due <= s.asked[ch] + s.coils.maxOn
  }

  lemma StepKeepsWatch(s: Clocked, e: Event, ch: Channel)
    requires s.coils.Ok() && s.coils.maxOn > 0 && Watched(s, ch) && Enabled(s, e)
    requires e.TimerWriteFails? ==> !Live(s.coils, e.ch, e.id)
    ensures Watched(Next(s, e), ch)
  {}

  /** With timers on time and pins that obey, no bounded coil is on later than
      `maxOn` after it was last asked for, in any run at all. */
  lemma {:induction false} Ceiling(s: Clocked, es: seq<Event>, ch: Channel)
    requires s.coils.Ok() && s.coils.maxOn > 0 && Watched(s, ch)
    requires Possible(s, es) && PinsObey(s, es)
    ensures Watched(Run(s, es), ch)
    ensures var t := Run(s, es);
      ch in t.coils.on && ch in t.bounded ==> ch in t.asked && t.now <= t.asked[ch] + t.coils.maxOn
    decreases |es|
  {
    if es != [] {
      StepKeepsWatch(s, es[0], ch);
      StepKeepsOk(s, es[0]);
      Ceiling(Next(s, es[0]), es[1..], ch);
    }
  }

  // ---- And why it needs the pins ---------------------------------------------

  /** No armed timer is overdue. */
  ghost predicate Timely(s: Clocked) { forall ch :: ch in s.coils.armed ==> s.now <= s.coils.armed[ch].due }

  lemma {:induction false} RunKeepsTimely(s: Clocked, es: seq<Event>)
    requires Timely(s) && Possible(s, es)
    ensures Timely(Run(s, es))
    decreases |es|
  {
    if es != [] { RunKeepsTimely(Next(s, es[0]), es[1..]); }
  }

  /** Nor does a live timer run early. */
  ghost predicate Punctual(s: Clocked, es: seq<Event>)
    decreases |es|
  {
    es == [] || (Due(s, es[0]) && Punctual(Next(s, es[0]), es[1..]))
  }

  predicate Due(s: Clocked, e: Event) {
    (e.TimerRuns? || e.TimerWriteFails?) && Live(s.coils, e.ch, e.id) ==> s.coils.armed[e.ch].due <= s.now
  }

  /** Nothing happens but time and timers, of which at most `ch`'s fails. */
  predicate Undisturbed(es: seq<Event>, ch: Channel, written: bool) {
    forall i :: 0 <= i < |es| ==>
      es[i].Wait? || es[i].TimerRuns? || (!written && es[i].TimerWriteFails? && es[i].ch == ch)
  }

  lemma Earliest(armed: map<Channel, Alarm>, some: Channel) returns (ch: Channel)
    requires some in armed
    ensures ch in armed && forall d :: d in armed ==> armed[ch].due <= armed[d].due
  {
    ch := some;
    for c := 1 to 5
      invariant ch in armed && forall d :: d in armed && d < c ==> armed[ch].due <= armed[d].due
    {
      if c in armed && armed[c].due < armed[ch].due { ch := c; }
    }
  }

  /** On with no timer, or with one whose write fails. */
  predicate Outlasts(c: Coils, ch: Channel, written: bool) { ch in c.on && (ch !in c.armed || !written) }

  /** Left alone, every timer run just when it is due, the events end `beyond`
      seconds on or later, with `ch` on exactly if it outlasts its timer. */
  ghost predicate RunsOut(s: Clocked, es: seq<Event>, ch: Channel, written: bool, beyond: nat) {
    && Possible(s, es) && Punctual(s, es) && Undisturbed(es, ch, written)
    && var t := Run(s, es); t.now >= s.now + beyond && (ch in t.coils.on <==> Outlasts(s.coils, ch, written))
  }

  /** The pins matter: the auto-off forgets its timer before it writes the pin,
      so a write that fails leaves the coil on with nothing armed. From any state
      with nothing overdue a coil stays on past any bound exactly when it is on
      now and has no timer, or the write of that timer fails. */
  lemma {:induction false} CeilingNeedsThePin(s: Clocked, ch: Channel, written: bool, beyond: nat) returns (es: seq<Event>)
    requires s.coils.Ok() && Timely(s)
    ensures RunsOut(s, es, ch, written, beyond)
    decreases |s.coils.armed|
  {
    if s.coils.armed.Keys == {} {
      es := [Wait(beyond)];
      OneWait(s, beyond);
    } else {
      var d :| d in s.coils.armed.Keys;
      var c := Earliest(s.coils.armed, d);
      var wait, fired, n := OneTimer(s, c, ch, written);
      OneLess(s.coils.armed, c);
      var rest := CeilingNeedsThePin(n, ch, written, beyond);
      TimerFirst(s, wait, fired, n, rest, ch, written, beyond);
      es := [wait, fired] + rest;
    }
  }

  lemma TimerFirst(s: Clocked, wait: Event, fired: Event, n: Clocked, rest: seq<Event>, ch: Channel, written: bool, beyond: nat)
    requires wait.Wait? && Enabled(s, wait) && Undisturbed([fired], ch, written)
    requires (fired.TimerRuns? || fired.TimerWriteFails?) && Due(Next(s, wait), fired)
    requires n == Next(Next(s, wait), fired) && n.now >= s.now
    requires Outlasts(n.coils, ch, written) == Outlasts(s.coils, ch, written) && RunsOut(n, rest, ch, written, beyond)
    ensures RunsOut(s, [wait, fired] + rest, ch, written, beyond)
  {
    TwoThen(s, wait, fired, rest);
    assert [fired][0] == fired;
  }

  lemma OneWait(s: Clocked, beyond: nat)
    requires forall ch :: ch !in s.coils.armed
    ensures var es := [Wait(beyond)];
      Possible(s, es) && Punctual(s, es) && Run(s, es) == s.(now := s.now + beyond)
  {
    var es := [Wait(beyond)];
    assert es[1..] == [];
    assert Run(s, es) == Run(Next(s, es[0]), []);
  }

  /** The next timer due runs when it is. */
  lemma OneTimer(s: Clocked, c: Channel, ch: Channel, written: bool) returns (wait: Event, fired: Event, n: Clocked)
    requires s.coils.Ok() && Timely(s) && c in s.coils.armed
    requires forall d :: d in s.coils.armed ==> s.coils.armed[c].due <= s.coils.armed[d].due
    ensures wait.Wait? && Enabled(s, wait) && Undisturbed([fired], ch, written)
    ensures (fired.TimerRuns? || fired.TimerWriteFails?) && Due(Next(s, wait), fired)
    ensures n == Next(Next(s, wait), fired) && n.coils.Ok() && Timely(n) && n.now >= s.now
    ensures n.coils.armed == s.coils.armed - {c} && Outlasts(n.coils, ch, written) == Outlasts(s.coils, ch, written)
  {
    wait := Wait(s.coils.armed[c].due - s.now);
    fired := if c == ch && !written then TimerWriteFails(c, s.coils.armed[c].id) else TimerRuns(c, s.coils.armed[c].id);
    n := Next(Next(s, wait), fired);
    StepKeepsOk(Next(s, wait), fired);
  }

  lemma OneLess(armed: map<Channel, Alarm>, c: Channel)
    requires c in armed
    ensures |armed - {c}| < |armed|
  {
    assert (armed - {c}).Keys == armed.Keys - {c};
  }

  lemma TwoThen(s: Clocked, a: Event, b: Event, rest: seq<Event>)
    ensures var es := [a, b] + rest;
      && Run(s, es) == Run(Next(Next(s, a), b), rest)
      && (Possible(s, es) <==> Enabled(s, a) && Enabled(Next(s, a), b) && Possible(Next(Next(s, a), b), rest))
      && (Punctual(s, es) <==> Due(s, a) && Due(Next(s, a), b) && Punctual(Next(Next(s, a), b), rest))
  {
    var es := [a, b] + rest;
    assert es[1..] == [b] + rest && es[1..][1..] == rest;
  }
}
