/** The irrigation hold: what its conditions say, and what it drives. The
    engine is split as the source splits its fields, into a logical state that
    `evaluate` judges and a physical one that relay writes move. */
module IrrigationHold {
  import opened Relay

  // ---- Configuration --------------------------------------------------------

  datatype Column = TurbidityNtu | TdsPpm | Ph | FlowRateGpm

  datatype Comparison = AtLeast | Above | Below

  datatype Threshold = Threshold(column: Column, op: Comparison, limit: real)

  datatype FaultMode = ReleaseOnFault | HoldOnFault

  datatype HoldConfig = HoldConfig(enabled: bool, relay: int, thresholds: seq<Threshold>, tripSamples: int,
                                   release: int, onFault: FaultMode, interlockRelay: int) {
    /** The hold's channel is the smart breaker's interlock channel. */
    predicate Conflict() { enabled && 1 <= relay <= 4 && relay == interlockRelay }

    predicate Armed() { enabled && 1 <= relay <= 4 && !Conflict() }
  }

  /** The `irrigation_hold_*` settings, numbers already parsed; 0 switches a
      condition off. */
  datatype Settings = Settings(enabled: bool, relay: int, turbidityNtu: real, tdsPpm: real, phMin: real, phMax: real,
                               flowGpmMax: real, tripSamples: int, releaseMin: int, onFault: FaultMode,
                               interlockRelay: int)

  function Positive(ts: seq<Threshold>): (kept: seq<Threshold>)
    ensures forall t :: t in kept <==> t in ts && t.limit > 0.0
  {
    if ts == [] then [] else (if ts[0].limit > 0.0 then [ts[0]] else []) + Positive(ts[1..])
  }

  function Conditions(s: Settings): seq<Threshold> {
    [Threshold(TurbidityNtu, AtLeast, s.turbidityNtu), Threshold(TdsPpm, AtLeast, s.tdsPpm), Threshold(Ph, Below, s.phMin),
     Threshold(Ph, Above, s.phMax), Threshold(FlowRateGpm, AtLeast, s.flowGpmMax)]
  }

  /** A snapshot is usable whatever the settings: it trips after at least one
      sample, and on exactly the conditions that are switched on. */
  function FromSettings(s: Settings): (cfg: HoldConfig)
    ensures cfg.tripSamples >= 1 && cfg.release >= 0
    ensures forall t :: t in cfg.thresholds <==> t in Conditions(s) && t.limit > 0.0
  {
    HoldConfig(s.enabled, s.relay, Positive(Conditions(s)), if s.tripSamples < 1 then 1 else s.tripSamples,
               if s.releaseMin < 0 then 0 else 60 * s.releaseMin, s.onFault, s.interlockRelay)
  }

  const UNCONFIGURED := HoldConfig(false, 0, [], 2, 600, ReleaseOnFault, 0)

  // ---- One cycle's readings ---------------------------------------------------

  datatype Sample = Missing | NotANumber | NotFinite | Number(value: real)

  function ColumnName(c: Column): string {
    match c
    case TurbidityNtu => "turbidity_ntu"
    case TdsPpm => "tds_ppm"
    case Ph => "ph"
    case FlowRateGpm => "flow_rate_gpm"
  }

  /** The name the sensor monitor suspends the column's probe under. */
  function SensorName(c: Column): string {
    match c
    case TurbidityNtu => "turbidity"
    case TdsPpm => "tds"
    case Ph => "ph"
    case FlowRateGpm => "flow"
  }

  predicate Unreadable(t: Threshold, reading: map<Column, Sample>, suspended: set<string>) {
    || ColumnName(t.column) in suspended
    || SensorName(t.column) in suspended
    || t.column !in reading
    || !reading[t.column].Number?
  }

  predicate Exceeds(op: Comparison, value: real, limit: real) {
    match op
    case AtLeast => value >= limit
    case Above => value > limit
    case Below => value < limit
  }

  predicate Trips(t: Threshold, reading: map<Column, Sample>, suspended: set<string>) {
    !Unreadable(t, reading, suspended) && Exceeds(t.op, reading[t.column].value, t.limit)
  }

  /** What a cycle tells the engine: some condition trips, some condition
      cannot be read, and when. */
  datatype Cycle = Cycle(tripping: bool, unknown: bool, now: int)

  /** One pass over a snapshot's conditions. */
  function CycleOf(cfg: HoldConfig, reading: map<Column, Sample>, suspended: set<string>, now: int): Cycle {
    Cycle(exists i :: 0 <= i < |cfg.thresholds| && Trips(cfg.thresholds[i], reading, suspended),
          exists i :: 0 <= i < |cfg.thresholds| && Unreadable(cfg.thresholds[i], reading, suspended),
          now)
  }

  // ---- What the settings ask of a reading ---------------------------------------

  /** The column gave a value to go by: under neither name is its probe
      suspended, and what it gave is a finite number. */
  predicate Gave(reading: map<Column, Sample>, suspended: set<string>, column: Column, name: string, probe: string) {
    name !in suspended && probe !in suspended && column in reading && reading[column].Number?
  }

  /** A value the settings want the irrigation held for. */
  predicate Over(s: Settings, reading: map<Column, Sample>, suspended: set<string>) {
    || (s.turbidityNtu > 0.0 && Gave(reading, suspended, TurbidityNtu, "turbidity_ntu", "turbidity") &&
        reading[TurbidityNtu].value >= s.turbidityNtu)
    || (s.tdsPpm > 0.0 && Gave(reading, suspended, TdsPpm, "tds_ppm", "tds") && reading[TdsPpm].value >= s.tdsPpm)
    || (s.phMin > 0.0 && Gave(reading, suspended, Ph, "ph", "ph") && reading[Ph].value < s.phMin)
    || (s.phMax > 0.0 && Gave(reading, suspended, Ph, "ph", "ph") && reading[Ph].value > s.phMax)
    || (s.flowGpmMax > 0.0 && Gave(reading, suspended, FlowRateGpm, "flow_rate_gpm", "flow") &&
        reading[FlowRateGpm].value >= s.flowGpmMax)
  }

  /** Some column the settings ask about gave no value. */
  predicate Blind(s: Settings, reading: map<Column, Sample>, suspended: set<string>) {
    || (s.turbidityNtu > 0.0 && !Gave(reading, suspended, TurbidityNtu, "turbidity_ntu", "turbidity"))
    || (s.tdsPpm > 0.0 && !Gave(reading, suspended, TdsPpm, "tds_ppm", "tds"))
    || ((s.phMin > 0.0 || s.phMax > 0.0) && !Gave(reading, suspended, Ph, "ph", "ph"))
    || (s.flowGpmMax > 0.0 && !Gave(reading, suspended, FlowRateGpm, "flow_rate_gpm", "flow"))
  }

  lemma EachCondition(s: Settings, t: Threshold, reading: map<Column, Sample>, suspended: set<string>)
    requires t in Conditions(s) && t.limit > 0.0
    ensures Trips(t, reading, suspended) ==> Over(s, reading, suspended)
    ensures Unreadable(t, reading, suspended) ==> Blind(s, reading, suspended)
  {}

  /** Some condition that is on does what `Over` or `Blind` says. */
  lemma SomeCondition(s: Settings, reading: map<Column, Sample>, suspended: set<string>)
    ensures Over(s, reading, suspended) ==>
      exists t :: t in Conditions(s) && t.limit > 0.0 && Trips(t, reading, suspended)
    ensures Blind(s, reading, suspended) ==>
      exists t :: t in Conditions(s) && t.limit > 0.0 && Unreadable(t, reading, suspended)
  {
    var ts := Conditions(s);
    assert ts[0] in ts && ts[1] in ts && ts[2] in ts && ts[3] in ts && ts[4] in ts;
  }

  /** Under a snapshot of the settings a cycle trips exactly on a value over
      them, and is unknown exactly when a column they ask about is blind. */
  lemma CycleMeans(s: Settings, reading: map<Column, Sample>, suspended: set<string>, now: int)
    ensures CycleOf(FromSettings(s), reading, suspended, now)
         == Cycle(Over(s, reading, suspended), Blind(s, reading, suspended), now)
  {
    var ts := FromSettings(s).thresholds;
    forall i | 0 <= i < |ts| ensures Trips(ts[i], reading, suspended) ==> Over(s, reading, suspended)
      ensures Unreadable(ts[i], reading, suspended) ==> Blind(s, reading, suspended)
    {
      assert ts[i] in ts;
      EachCondition(s, ts[i], reading, suspended);
    }
    SomeCondition(s, reading, suspended);
  }

  // ---- The logical state ------------------------------------------------------

  datatype Instant = Never | At(time: int)

  datatype Fault = NoFault | FaultReleased | FaultHeld

  datatype Logic = Logic(holding: bool, tripCount: nat, clearSince: Instant, fault: Fault)

  const RELEASED := Logic(false, 0, Never, NoFault)

  function Judge(cfg: HoldConfig, l: Logic, c: Cycle): Logic {
    if c.unknown && cfg.onFault == ReleaseOnFault then
      RELEASED.(fault := FaultReleased)
    else if c.tripping || c.unknown then
      var holding := l.holding || l.tripCount + 1 >= cfg.tripSamples;
      Logic(holding, l.tripCount + 1, Never, if c.unknown && holding then FaultHeld else NoFault)
    else if !l.holding then
      l.(tripCount := 0, fault := NoFault)
    else
      var since := if l.clearSince.Never? then c.now else l.clearSince.time;
      if c.now - since >= cfg.release then RELEASED
      else Logic(true, 0, At(since), NoFault)
  }

  // ---- The physical state -----------------------------------------------------

  datatype Hold = Hold(cfg: HoldConfig, configured: bool, logic: Logic, driven: bool, drivenChannel: int,
                       lastSuspended: set<string>) {
    predicate Owns(channel: int) { cfg.Armed() && channel == cfg.relay }

    function Reserved(): set<int> { if cfg.Armed() then {cfg.relay} else {} }
  }

  const FRESH := Hold(UNCONFIGURED, false, RELEASED, false, 0, {})

  /** The hold and the coils it drives. */
  datatype Plant = Plant(hold: Hold, coils: Coils)

  /** The channel a drive goes to: a release goes to the channel last driven,
      when there is one. */
  function DriveChannel(h: Hold, on: bool): int {
    if on || h.drivenChannel == 0 then h.cfg.relay else h.drivenChannel
  }

  function Drive(p: Plant, on: bool, now: int, written: bool): Plant {
    var channel := DriveChannel(p.hold, on);
    if !(1 <= channel <= 4) || !written then p
    else Plant(p.hold.(driven := on, drivenChannel := if on then channel else 0),
               p.coils.Set(channel, on, on, now))
  }

  /** `w1` and `w2` say whether the first and the second relay write succeed. */
  function Configure(p: Plant, cfg: HoldConfig, now: int, w1: bool, w2: bool): Plant {
    var prior := p.hold.cfg;
    if p.hold.configured && cfg == prior then p
    else
      var p0 := p.(hold := p.hold.(cfg := cfg, configured := true));
      var letGo := p0.hold.driven && (!cfg.Armed() || cfg.relay != p0.hold.drivenChannel);
      var p1 := if letGo then Drive(p0, false, now, w1) else p0;
      var p2 := if letGo || !cfg.Armed() || cfg.relay != prior.relay then p1.(hold := p1.hold.(logic := RELEASED)) else p1;
      if cfg.Armed() && (!prior.Armed() || cfg.relay != prior.relay) then Drive(p2, false, now, w2) else p2
  }

  function Evaluate(p: Plant, c: Cycle, suspended: set<string>, w1: bool, w2: bool): Plant {
    var cfg := p.hold.cfg;
    var p0 := p.(hold := p.hold.(lastSuspended := suspended));
    var p1 := if p0.hold.driven && (!cfg.Armed() || p0.hold.drivenChannel != cfg.relay)
              then Drive(p0, false, c.now, w1) else p0;
    if !cfg.Armed() then p1
    else
      var p2 := p1.(hold := p1.hold.(logic := Judge(cfg, p1.hold.logic, c)));
      if p2.hold.logic.holding != p2.hold.driven then Drive(p2, p2.hold.logic.holding, c.now, w2) else p2
  }

  // ---- The engine ---------------------------------------------------------------

  class Engine {
    const relays: RelayController
    var cfg: HoldConfig
    var configured: bool
    var holding: bool
    var tripCount: nat
    var clearSince: Instant
    var fault: Fault
    var driven: bool
    var drivenChannel: int
    var lastSuspended: set<string>

    ghost function State(): Plant
      reads this, relays
      requires relays.Valid()
    {
      Plant(Hold(cfg, configured, Logic(holding, tripCount, clearSince, fault), driven, drivenChannel, lastSuspended),
            relays.State())
    }

    constructor (relays: RelayController)
      requires relays.Valid()
      ensures this.relays == relays && relays.Valid() && State() == Plant(FRESH, old(relays.State()))
    {
      this.relays := relays;
      cfg, configured, holding, tripCount := UNCONFIGURED, false, false, 0;
      clearSince, fault, driven, drivenChannel, lastSuspended := Never, NoFault, false, 0, {};
    }

    method Reset()
      requires relays.Valid()
      modifies this`holding, this`tripCount, this`clearSince, this`fault
      ensures State() == old(State()).(hold := old(State()).hold.(logic := RELEASED))
    {
      holding, tripCount, clearSince, fault := false, 0, Never, NoFault;
    }

    method DriveCoil(on: bool, now: int, written: bool)
      requires relays.Valid()
      modifies this`driven, this`drivenChannel, relays
      ensures relays.Valid() && State() == Drive(old(State()), on, now, written)
    {
      var channel := if on then cfg.relay else if drivenChannel != 0 then drivenChannel else cfg.relay;
      if !(1 <= channel <= 4) {
        return;
      }
      var ok := relays.Set(channel, on, on, now, written);
      if !ok {
        return;
      }
      driven := on;
      drivenChannel := if on then channel else 0;
    }

    method ConfigureHold(next: HoldConfig, now: int, w1: bool, w2: bool)
      requires relays.Valid()
      modifies this, relays
      ensures relays.Valid() && State() == Configure(old(State()), next, now, w1, w2)
    {
      if configured && next == cfg {
        return;
      }
      var prior := cfg;
      cfg := next;
      configured := true;
      if driven && (!next.Armed() || next.relay != drivenChannel) {
        DriveCoil(false, now, w1);
        Reset();
      } else if !next.Armed() || next.relay != prior.relay {
        Reset();
      }
      if next.Armed() && (!prior.Armed() || next.relay != prior.relay) {
        DriveCoil(false, now, w2);
      }
    }

    /** One pass over the thresholds. */
    method Observe(reading: map<Column, Sample>, now: int) returns (c: Cycle)
      ensures c == CycleOf(cfg, reading, lastSuspended, now)
      ensures forall s :: cfg == FromSettings(s) ==>
        c == Cycle(Over(s, reading, lastSuspended), Blind(s, reading, lastSuspended), now)
    {
      var tripping, unknown := false, false;
      for i := 0 to |cfg.thresholds|
        invariant tripping <==> exists k :: 0 <= k < i && Trips(cfg.thresholds[k], reading, lastSuspended)
        invariant unknown <==> exists k :: 0 <= k < i && Unreadable(cfg.thresholds[k], reading, lastSuspended)
      {
        var t := cfg.thresholds[i];
        if Unreadable(t, reading, lastSuspended) {
          unknown := true;
        } else if Exceeds(t.op, reading[t.column].value, t.limit) {
          tripping := true;
        }
      }
      c := Cycle(tripping, unknown, now);
      forall s | cfg == FromSettings(s)
        ensures c == Cycle(Over(s, reading, lastSuspended), Blind(s, reading, lastSuspended), now)
      {
        CycleMeans(s, reading, lastSuspended, now);
      }
    }

    /** The branch of `evaluate` that updates the logical state. */
    method JudgeCycle(seen: Cycle)
      requires relays.Valid()
      modifies this`holding, this`tripCount, this`clearSince, this`fault
      ensures State() == old(State()).(hold := old(State()).hold.(logic := Judge(cfg, old(State()).hold.logic, seen)))
    {
      if seen.unknown && cfg.onFault == ReleaseOnFault {
        Reset();
        fault := FaultReleased;
      } else if seen.tripping || seen.unknown {
        tripCount := tripCount + 1;
        clearSince := Never;
        if !holding && tripCount >= cfg.tripSamples {
          holding := true;
        }
        fault := if seen.unknown && holding then FaultHeld else NoFault;
      } else {
        tripCount := 0;
        fault := NoFault;
        if holding {
          if clearSince.Never? {
            clearSince := At(seen.now);
          }
          if seen.now - clearSince.time >= cfg.release {
            Reset();
          }
        }
      }
    }

    /** `known` is false when the monitor threw: the last known set stands. */
    method EvaluateCycle(reading: map<Column, Sample>, suspended: set<string>, known: bool, now: int,
                         w1: bool, w2: bool) returns (ghost c: Cycle)
      requires relays.Valid()
      modifies this, relays
      ensures relays.Valid() && cfg == old(cfg) && c == CycleOf(cfg, reading, lastSuspended, now)
      ensures forall s :: cfg == FromSettings(s) ==>
        c == Cycle(Over(s, reading, lastSuspended), Blind(s, reading, lastSuspended), now)
      ensures State() == Evaluate(old(State()), c, if known then suspended else old(lastSuspended), w1, w2)
    {
      if known {
        lastSuspended := suspended;
      }
      var seen := Observe(reading, now);
      c := seen;
      if driven && (!cfg.Armed() || drivenChannel != cfg.relay) {
        DriveCoil(false, now, w1);
      }
      if !cfg.Armed() {
        return;
      }
      JudgeCycle(seen);
      if holding != driven {
        DriveCoil(holding, now, w2);
      }
    }
  }
}
