/** The four-channel relay controller. `Coils` is what its fields mean; the
    class keeps the mask, the pins and the timer table the source keeps. */
module Relay {

  type Channel = c: int | 1 <= c <= 4 witness 1

  /** An armed auto-off: which timer, and when it is due. */
  datatype Alarm = Alarm(id: nat, due: int)

  datatype Coils = Coils(on: set<Channel>, armed: map<Channel, Alarm>, nextId: nat, maxOn: int) {
    /** A timer is only ever armed on an energised coil, and timer numbers are
        handed out once. */
    ghost predicate Ok() {
      && armed.Keys <= on
      && (forall ch :: ch in armed ==> armed[ch].id < nextId)
      && (forall c, d :: c in armed && d in armed && c != d ==> armed[c].id != armed[d].id)
    }

    function Without(ch: Channel): Coils { this.(armed := armed - {ch}) }

    function Arm(ch: Channel, due: int): Coils {
      this.(armed := armed[ch := Alarm(nextId, due)], nextId := nextId + 1)
    }

    /** `set`: drives the coil, cancels its timer, and re-arms the ceiling. */
    function Set(ch: Channel, state: bool, unbounded: bool, now: int): Coils {
      var c := Without(ch).(on := if state then on + {ch} else on - {ch});
      if state && maxOn > 0 && !unbounded then c.Arm(ch, now + maxOn) else c
    }

    /** The seconds `arm_auto_off` grants; 0 when it does nothing. */
    function Granted(ch: Channel, duration: int): int {
      if duration <= 0 || ch !in on then 0
      else if maxOn > 0 && maxOn < duration then maxOn
      else duration
    }

    function ArmAutoOff(ch: Channel, duration: int, now: int): Coils {
      if Granted(ch, duration) == 0 then this else Arm(ch, now + Granted(ch, duration))
    }

    /** Timer `id` of channel `ch` runs, on time or long after it was replaced. */
    function Fire(ch: Channel, id: nat): Coils {
      if ch in armed && armed[ch].id == id then this.(on := on - {ch}, armed := armed - {ch}) else this
    }

    function AllOff(): Coils { this.(on := {}, armed := map[]) }
  }

  // ---- What a request leaves ------------------------------------------------

  /** A coil and its timer, as an event may or may not leave them. */
  predicate SameAt(c: Coils, d: Coils, ch: Channel) {
    && (ch in c.on <==> ch in d.on)
    && (ch in c.armed <==> ch in d.armed)
  }

  /** The channel's timer is due at the earlier of the two bounds that are
      set, of the duration asked for and the ceiling; with neither there is
      none. */
  predicate Bounded(c: Coils, ch: Channel, duration: int, now: int) {
    && (ch in c.armed <==> duration > 0 || c.maxOn > 0)
    && (ch in c.armed ==>
          var due := c.armed[ch].due;
          && now < due
          && (due == now + duration || due == now + c.maxOn)
          && (duration > 0 ==> due <= now + duration)
          && (c.maxOn > 0 ==> due <= now + c.maxOn))
  }

  /** A request carried out: the coil as asked, an ON bounded, an OFF without
      a timer, every other channel as it was. */
  ghost predicate Obeyed(c: Coils, d: Coils, ch: Channel, state: bool, duration: int, now: int) {
    && (ch in d.on <==> state)
    && (if state then Bounded(d, ch, duration, now) else ch !in d.armed)
    && d.maxOn == c.maxOn
    && forall other: Channel :: other != ch ==>
         SameAt(c, d, other) && (other in c.armed ==> d.armed[other] == c.armed[other])
  }

  lemma WriteObeyed(c: Coils, ch: Channel, state: bool, duration: int, now: int)
    ensures var d := c.Set(ch, state, false, now);
      Obeyed(c, d, ch, state, 0, now) &&
      (state ==> Obeyed(c, d.ArmAutoOff(ch, duration, now), ch, state, duration, now))
  {}

  // ---- The controller -----------------------------------------------------

  class Timer {
    ghost const id: nat
    const channel: Channel
    const due: int

    constructor (ghost id: nat, channel: Channel, due: int)
      ensures this.id == id && this.channel == channel && this.due == due
    {
      this.id, this.channel, this.due := id, channel, due;
    }
  }

  function Weight(ch: Channel): nat {
    if ch == 1 then 1 else if ch == 2 then 2 else if ch == 3 then 4 else 8
  }

  /** Bit `ch - 1` of the mask, and the mask with that bit set or cleared. */
  predicate HasBit(mask: nat, ch: Channel) { mask / Weight(ch) % 2 == 1 }

  function WithBit(mask: nat, ch: Channel): nat {
    if HasBit(mask, ch) then mask else mask + Weight(ch)
  }

  function WithoutBit(mask: nat, ch: Channel): nat {
    if HasBit(mask, ch) then mask - Weight(ch) else mask
  }

  /** The level of a channel's pin. */
  predicate High(levels: seq<bool>, ch: Channel) { |levels| == 4 && levels[ch - 1] }

  function MaskOf(levels: seq<bool>): nat
    requires |levels| == 4
  {
    (if levels[0] then 1 else 0) + (if levels[1] then 2 else 0) + (if levels[2] then 4 else 0) + (if levels[3] then 8 else 0)
  }

  lemma MaskBit(levels: seq<bool>, ch: Channel)
    requires |levels| == 4
    ensures HasBit(MaskOf(levels), ch) <==> High(levels, ch)
  {}

  /** Writing a pin and setting or clearing its bit keep the mask exact. */
  lemma MaskUpdate(levels: seq<bool>, ch: Channel, state: bool)
    requires |levels| == 4
    ensures MaskOf(levels[ch - 1 := state])
         == if state then WithBit(MaskOf(levels), ch) else WithoutBit(MaskOf(levels), ch)
  {
    MaskBit(levels, ch);
  }

  ghost function Energised(levels: seq<bool>): set<Channel> {
    set ch: Channel | 1 <= ch <= 4 && High(levels, ch)
  }

  ghost function Alarms(timers: map<Channel, Timer>): map<Channel, Alarm> {
    map ch | ch in timers :: Alarm(timers[ch].id, timers[ch].due)
  }

  lemma AlarmsWith(timers: map<Channel, Timer>, ch: Channel, t: Timer)
    ensures Alarms(timers[ch := t]) == Alarms(timers)[ch := Alarm(t.id, t.due)]
  {}

  /** Arming after cancelling is arming. */
  lemma Rearmed(c: Coils, ch: Channel, due: int)
    ensures c.Without(ch).Arm(ch, due) == c.Arm(ch, due)
  {
    assert (c.armed - {ch})[ch := Alarm(c.nextId, due)] == c.armed[ch := Alarm(c.nextId, due)];
  }

  class RelayController {
    var mask: nat
    var levels: seq<bool>
    var timers: map<Channel, Timer>
    var maxOn: int
    ghost var issued: map<nat, Timer>
    ghost var nextId: nat

    /** The mask and the pins agree, and every timer in the table was issued
        here and belongs to an energised channel. */
    ghost predicate Valid()
      reads this
    {
      && |levels| == 4
      && mask == MaskOf(levels)
      && (forall ch :: ch in timers ==>
            High(levels, ch) && timers[ch].channel == ch && timers[ch].id in issued && issued[timers[ch].id] == timers[ch])
      && (forall id :: id in issued ==> id < nextId && issued[id].id == id)
    }

    ghost function State(): Coils
      reads this
      requires Valid()
    {
      Coils(Energised(levels), Alarms(timers), nextId, maxOn)
    }

    constructor (maxOn: int)
      ensures Valid() && State() == Coils({}, map[], 0, maxOn)
    {
      this.mask, this.levels, this.timers := 0, [false, false, false, false], map[];
      this.maxOn, this.issued, this.nextId := maxOn, map[], 0;
    }

    method Get(ch: Channel) returns (on: bool)
      requires Valid()
      ensures on <==> ch in State().on
    {
      MaskBit(levels, ch);
      on := HasBit(mask, ch);
    }

    method Drive(ch: Channel, state: bool)
      requires Valid() && (state || ch !in timers)
      modifies this`levels, this`mask
      ensures Valid()
      ensures State() == old(State()).(on := if state then old(State()).on + {ch} else old(State()).on - {ch})
    {
      MaskUpdate(levels, ch, state);
      levels := levels[ch - 1 := state];
      mask := if state then WithBit(mask, ch) else WithoutBit(mask, ch);
    }

    method CancelTimer(ch: Channel)
      requires Valid()
      modifies this`timers
      ensures Valid() && timers == old(timers) - {ch} && State() == old(State()).Without(ch)
    {
      timers := timers - {ch};
    }

    method ArmTimer(ch: Channel, due: int) returns (t: Timer)
      requires Valid() && ch in State().on
      modifies this`timers, this`issued, this`nextId
      ensures Valid() && State() == old(State()).Arm(ch, due)
      ensures t.id in issued && issued[t.id] == t && t.channel == ch && t.due == due
    {
      Rearmed(State(), ch, due);
      CancelTimer(ch);
      t := new Timer(nextId, ch, due);
      Enter(t);
    }

    /** A new timer goes into the table. */
    method Enter(t: Timer)
      requires Valid() && t.channel in State().on && t.id == nextId
      modifies this`timers, this`issued, this`nextId
      ensures Valid() && State() == old(State()).Arm(t.channel, t.due)
      ensures t.id in issued && issued[t.id] == t
    {
      AlarmsWith(timers, t.channel, t);
      timers := timers[t.channel := t];
      issued := issued[nextId := t];
      nextId := nextId + 1;
    }

    /** What a request does once its pin write has succeeded. */
    method Switch(ch: Channel, state: bool, unbounded: bool, now: int)
      requires Valid()
      modifies this
      ensures Valid() && State() == old(State()).Set(ch, state, unbounded, now)
    {
      ghost var c := State();
      CancelTimer(ch);
      Drive(ch, state);
      ghost var d := State();
      assert d == c.Without(ch).(on := if state then c.on + {ch} else c.on - {ch}) && d.maxOn == maxOn;
      if state && maxOn > 0 && !unbounded {
        var _ := ArmTimer(ch, now + maxOn);
      }
    }

    /** `written` says whether the pin write succeeds; a failed one raises
        before anything else changed. The result is whether the call returned. */
    method Set(channel: int, state: bool, unbounded: bool, now: int, written: bool) returns (ok: bool)
      requires Valid()
      modifies this
      ensures Valid() && ok == (1 <= channel <= 4 && written)
      ensures State() == if ok then old(State()).Set(channel, state, unbounded, now) else old(State())
    {
      if !(1 <= channel <= 4) || !written {
        return false;
      }
      ok := true;
      Switch(channel, state, unbounded, now);
    }

    method ArmAutoOff(ch: Channel, duration: int, now: int) returns (granted: int)
      requires Valid()
      modifies this
      ensures Valid() && granted == old(State()).Granted(ch, duration)
      ensures State() == old(State()).ArmAutoOff(ch, duration, now)
    {
      granted := duration;
      if granted <= 0 {
        return 0;
      }
      var on := Get(ch);
      if !on {
        return 0;
      }
      if maxOn > 0 && maxOn < granted {
        granted := maxOn;
      }
      var _ := ArmTimer(ch, now + granted);
    }

    /** The body of a timer thread. It acts only if the table still holds this
        very timer. */
    method AutoOff(t: Timer, written: bool)
      requires Valid() && t.id in issued && issued[t.id] == t
      modifies this
      ensures Valid()
      ensures written ==> State() == old(State()).Fire(t.channel, t.id)
      ensures !written && t.channel in old(timers) && old(timers)[t.channel] == t ==>
        State() == old(State()).Without(t.channel)
      ensures !(t.channel in old(timers) && old(timers)[t.channel] == t) ==> State() == old(State())
    {
      if t.channel !in timers || timers[t.channel] != t {
        return;
      }
      CancelTimer(t.channel);
      var on := Get(t.channel);
      if !on || !written {
        return;
      }
      Drive(t.channel, false);
    }

    method AllOff()
      requires Valid()
      modifies this
      ensures Valid() && State() == old(State()).AllOff()
    {
      for ch := 1 to 5
        invariant Valid()
        invariant forall c :: c in timers ==> ch <= c
        invariant nextId == old(nextId) && maxOn == old(maxOn)
      {
        CancelTimer(ch);
      }
      levels := [false, false, false, false];
      mask := 0;
    }
  }
}
