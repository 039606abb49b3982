/** Runs of the device with crashes and restarts: what no run ever does. */
module LoRaRuns {
  import opened Wrappers
  import opened BitMath
  import opened LoRaCrypto
  import opened LoRaMac
  import opened LoRaLink
  import opened Paths

  datatype Call =
    | JoinCall(random: nat, sent: bool, received: Option<Bytes>)
    | UplinkCall(payload: Bytes, port: Byte, confirmed: bool, sent: bool, received: Option<Bytes>, snr: int)
    | PersistCall
    | ForgetCall
  {
    predicate Ok() {
      match this
      case JoinCall(random, _, _) => random <= 0xFFFF
      case _ => true
    }
  }

  /** State before the receive windows, and what the world has seen by then. */
  function Started(d: Device, m: Mac, c: Call): (r: (Mac, seq<Effect>))
    requires d.Ok() && m.Ok() && c.Ok()
    ensures r.0.Ok()
  {
    match c
    case JoinCall(random, _, _) => JoinStarted(d, m, random)
    case UplinkCall(payload, port, confirmed, _, _, _) => UplinkStarted(d, m, payload, port, confirmed)
    case PersistCall => (m, [Persist(ImageOf(m))])
    case ForgetCall => (Forgotten(d, m), [])
  }

  /** Whether the call opens receive windows and something comes in. */
  predicate Receives(d: Device, m: Mac, c: Call)
    requires d.Ok() && m.Ok() && c.Ok()
  {
    && |Started(d, m, c).1| == 2
    && (c.JoinCall? || c.UplinkCall?) && c.sent && c.received.Some?
  }

  function Finished(d: Device, m: Mac, c: Call): (r: Mac)
    requires d.Ok() && m.Ok() && c.Ok()
    ensures r.Ok()
  {
    var started := Started(d, m, c).0;
    if !Receives(d, m, c) then started
    else if c.JoinCall? then JoinAccepted(d, started, c.received.value).0
    else Downlink(d.aes, started, c.received.value, c.snr).0
  }

  predicate JoinsNow(d: Device, m: Mac, c: Call)
    requires d.Ok() && m.Ok() && c.Ok()
  {
    Receives(d, m, c) && c.JoinCall? && JoinAccepted(d, Started(d, m, c).0, c.received.value).1
  }

  predicate HearsNow(d: Device, m: Mac, c: Call)
    requires d.Ok() && m.Ok() && c.Ok()
  {
    Receives(d, m, c) && c.UplinkCall? && Genuine(d.aes, Started(d, m, c).0, c.received.value)
  }

  /** A verified downlink and the counter it was accepted at. */
  datatype Reception = Reception(data: Bytes, fcnt: nat)

  /** One call as the log sees it: what it started from is `m`; it persists and
      sends, returns in `done`, may have joined or heard a downlink. */
  datatype Trip = Trip(join: bool, random: nat, m: Mac, effects: seq<Effect>, done: Mac, joins: bool,
                       heard: Option<Reception>)

  function TripOf(d: Device, m: Mac, c: Call): Trip
    requires d.Ok() && m.Ok() && c.Ok()
  {
    var (started, effects) := Started(d, m, c);
    Trip(c.JoinCall?, if c.JoinCall? then c.random else 0, started, effects, Finished(d, m, c), JoinsNow(d, m, c),
         if HearsNow(d, m, c) then Some(Reception(c.received.value, DownCount(started, c.received.value))) else None)
  }

  /** What every call does to the session and the counters before the receive
      windows: no frame counter is used that was not spent and persisted. */
  ghost predicate FairStart(m: Mac, join: bool, random: nat, started: Mac, effects: seq<Effect>)
    requires m.Ok()
  {
    && started.Ok()
    && (effects == [] || (|effects| <= 2 && effects[0] == Persist(ImageOf(started))))
    && (|effects| == 2 ==> effects[1].Send?)
    && (join ==> |effects| == 2 && started.session == m.session
                 && random <= 0xFFFF && started.devNonce == started.nonceCounter == NextNonce(m.nonceCounter, random))
    && (!join ==> started.nonceCounter == m.nonceCounter)
    && (!join && |effects| == 2 ==> m.session.joined && started.session == m.session.(fcntUp := m.session.fcntUp + 1))
    && (!join && |effects| < 2 ==> started.session == m.session || !started.session.joined)
  }

  /** And in them. */
  ghost predicate FairEnd(started: Mac, done: Mac, joins: bool, heard: Option<Reception>) {
    && done.Ok() && done.nonceCounter == started.nonceCounter
    && (joins ==> heard.None? && done.session.fcntUp == 0 && done.session.fcntDown == 0)
    && (!joins && heard.None? ==> done.session == started.session)
    && (!joins && heard.Some? ==> done.session == started.session.(fcntDown := heard.value.fcnt + 1))
    && (heard.Some? ==> started.session.joined)
    && (heard.Some? && started.session.fcntDown <= 0xFFFF_FFFF ==>
          started.session.fcntDown <= heard.value.fcnt < started.session.fcntDown + 0x10000)
  }

  ghost predicate Fair(m: Mac, t: Trip) {
    && m.Ok() && (t.heard.Some? ==> |t.effects| == 2 && !t.join && !t.joins)
    && FairStart(m, t.join, t.random, t.m, t.effects) && FairEnd(t.m, t.done, t.joins, t.heard)
  }

  lemma UplinkStartFair(d: Device, m: Mac, payload: Bytes, port: Byte, confirmed: bool)
    requires d.Ok() && m.Ok()
    ensures var (started, effects) := UplinkStarted(d, m, payload, port, confirmed);
      FairStart(m, false, 0, started, effects)
  {}

  lemma StartFair(d: Device, m: Mac, c: Call, started: Mac, effects: seq<Effect>)
    requires d.Ok() && m.Ok() && c.Ok() && (started, effects) == Started(d, m, c)
    ensures FairStart(m, c.JoinCall?, if c.JoinCall? then c.random else 0, started, effects)
  {
    match c
    case UplinkCall(payload, port, confirmed, _, _, _) => UplinkStartFair(d, m, payload, port, confirmed);
    case _ =>
  }

  lemma EndFair(d: Device, m: Mac, c: Call, t: Trip)
    requires d.Ok() && m.Ok() && c.Ok() && t == TripOf(d, m, c)
    ensures FairEnd(t.m, t.done, t.joins, t.heard)
  {
    if Receives(d, m, c) && c.JoinCall? {
      JoinSession(d, t.m, c.received.value);
    } else if Receives(d, m, c) {
      DownlinkSession(d.aes, t.m, c.received.value, c.snr);
    }
  }

  lemma TripFair(d: Device, m: Mac, c: Call)
    requires d.Ok() && m.Ok() && c.Ok()
    ensures Fair(m, TripOf(d, m, c))
  {
    var t := TripOf(d, m, c);
    StartFair(d, m, c, t.m, t.effects);
    EndFair(d, m, c, t);
  }

  lemma JoinSession(d: Device, m: Mac, data: Bytes)
    requires d.Ok() && m.Ok()
    ensures var (j, ok) := JoinAccepted(d, m, data);
      j.nonceCounter == m.nonceCounter && (if ok then j.session.fcntUp == j.session.fcntDown == 0 else j == m)
  {}

  lemma DownlinkSession(aes: Aes, m: Mac, data: Bytes, snr: int)
    requires aes.Lawful() && m.Ok()
    ensures var r := Downlink(aes, m, data, snr).0;
      r.nonceCounter == m.nonceCounter &&
      r.session == (if Genuine(aes, m, data) then m.session.(fcntDown := DownCount(m, data) + 1) else m.session)
    ensures |data| >= 12 && m.session.fcntDown <= 0xFFFF_FFFF ==>
      m.session.fcntDown <= DownCount(m, data) < m.session.fcntDown + 0x10000
  {
    if |data| >= 12 { ReconstructionExact(m.session.fcntDown, Fcnt16(data)); }
  }

  // ---- The world -----------------------------------------------------------------

  /** A session is numbered when it is joined, a counter when it is used. */
  datatype Tx = Tx(session: nat, fcnt: nat)

  datatype Request = Request(draw: nat, nonce: nat)

  /** Whether an acceptance has reached the disk: not yet, or it did, or the
      device restarted first. */
  datatype Fate = Fresh | Kept | Lost

  /** An accepted downlink, for good: under which session, at which counter,
      and which counter was expected. */
  datatype Hearing = Hearing(session: nat, under: Session, fcnt: nat, data: Bytes, expected: nat, fate: Fate)

  /** What was fresh meets its fate. */
  function Refated(log: seq<Hearing>, fate: Fate): (r: seq<Hearing>)
    ensures |r| == |log|
  {
    seq(|log|, i requires 0 <= i < |log| => if log[i].fate == Fresh then log[i].(fate := fate) else log[i])
  }

  /** The device, its disk, and the log, of which nothing is ever taken back.
      `session` numbers the session in memory and `draw` counts its DevNonces
      from `base`; `disk...` are the same for what was last persisted. */
  datatype World = World(mac: Mac, session: nat, draw: nat, disk: Option<Image>, diskSession: nat, diskDraw: nat,
                         nextSession: nat, base: nat, uplinks: seq<Tx>, requests: seq<Request>, heard: seq<Hearing>)

  function Boot(d: Device): World {
    World(LoRaMac.Fresh(d), 0, 0, None, 0, 0, 1, 0, [], [], [])
  }

  /** A join draws the next DevNonce, or the first. */
  function Numbered(w: World, t: Trip): World {
    if !t.join then w
    else if w.mac.nonceCounter < 0 then w.(base := t.random, draw := 0)
    else w.(draw := w.draw + 1)
  }

  function OnDisk(w: World, i: Image): World {
    w.(disk := Some(i), diskSession := w.session, diskDraw := w.draw, heard := Refated(w.heard, Kept))
  }

  /** One effect reaches the disk or the air; the counters are those the call
      was started with. */
  function Seen(w: World, t: Trip, e: Effect): World {
    match e
    case Persist(i) => OnDisk(w, i)
    case Send(_) =>
      if t.join then w.(requests := w.requests + [Request(w.draw, t.m.devNonce)])
      else w.(uplinks := w.uplinks + [Tx(w.session, w.mac.session.fcntUp)])
  }

  function Performed(w: World, t: Trip, k: nat): World
    requires k <= |t.effects| <= 2
  {
    if k == 0 then w else if k == 1 then Seen(w, t, t.effects[0]) else Seen(Seen(w, t, t.effects[0]), t, t.effects[1])
  }

  /** The call returns: a new session number if it joined, a new entry if it
      heard a downlink. */
  function Returned(w: World, t: Trip): World {
    var done := w.(mac := t.done);
    if t.joins then done.(session := w.nextSession, nextSession := w.nextSession + 1)
    else match t.heard
      case None => done
      case Some(r) =>
        done.(heard := w.heard + [Hearing(w.session, t.m.session, r.fcnt, r.data, t.m.session.fcntDown, Fresh)])
  }

  /** Power comes back: `up` is what the disk gives. */
  function Rebooted(w: World, up: Mac): World {
    var r := w.(mac := up, draw := w.diskDraw, heard := Refated(w.heard, Lost));
    if w.disk.Some? && w.disk.value.session.joined then r.(session := w.diskSession)
    else r.(session := w.nextSession, nextSession := w.nextSession + 1)
  }

  /** Run a call, or crash in it after `k` of its effects and restart. */
  datatype Move = Run(call: Call) | Crash(call: Call, k: nat)

  predicate Possible(d: Device, w: World, v: Move)
    requires d.Ok() && w.mac.Ok()
  {
    v.call.Ok() && (v.Crash? ==> v.k <= |TripOf(d, w.mac, v.call).effects|)
  }

  function Crashed(d: Device, w: World, t: Trip, k: nat): World
    requires k <= |t.effects| <= 2
  {
    var seen := Performed(Numbered(w, t), t, k);
    Rebooted(seen, Restarted(d, seen.disk))
  }

  function Completed(w: World, t: Trip): World
    requires |t.effects| <= 2
  {
    Returned(Performed(Numbered(w, t), t, |t.effects|), t)
  }

  // ---- Every reachable state is a good state ------------------------------------------

  /** Saved from some good state. */
  ghost predicate SavedWell(i: Image) { exists m: Mac :: m.Ok() && ImageOf(m) == i }

  ghost predicate Basic(w: World) { w.mac.Ok() && (w.disk.Some? ==> SavedWell(w.disk.value)) }

  lemma RestartOk(d: Device, disk: Option<Image>)
    requires disk.Some? ==> SavedWell(disk.value)
    ensures Restarted(d, disk).Ok()
    ensures disk.Some? && disk.value.session.joined ==> Restarted(d, disk).session == disk.value.session
    ensures disk.None? || !disk.value.session.joined ==> !Restarted(d, disk).session.joined
    ensures Restarted(d, disk).nonceCounter == if disk.Some? then disk.value.saved.devNonce else -1
  {
    FreshOk(d);
    if disk.Some? {
      var m: Mac :| m.Ok() && ImageOf(m) == disk.value;
      RestartedOk(d, m);
    }
  }

  lemma DiskPerformed(w: World, t: Trip, k: nat)
    requires k <= |t.effects| <= 2
    requires k > 0 ==> t.effects[0] == Persist(ImageOf(t.m))
    requires k == 2 ==> t.effects[1].Send?
    ensures Performed(w, t, k).disk == if k == 0 then w.disk else Some(ImageOf(t.m))
  {}

  lemma SavedWellNow(m: Mac)
    requires m.Ok()
    ensures SavedWell(ImageOf(m))
  {}

  lemma DiskStays(w: World, t: Trip, k: nat)
    requires Basic(w) && Fair(w.mac, t) && k <= |t.effects|
    ensures var seen := Performed(Numbered(w, t), t, k); seen.disk.Some? ==> SavedWell(seen.disk.value)
  {
    DiskPerformed(Numbered(w, t), t, k);
    SavedWellNow(t.m);
  }

  function Moved(d: Device, w: World, v: Move): (r: World)
    requires d.Ok() && Basic(w) && Possible(d, w, v)
    ensures Basic(r)
  {
    var t := TripOf(d, w.mac, v.call);
    TripFair(d, w.mac, v.call);
    DiskStays(w, t, if v.Crash? then v.k else |t.effects|);
    if v.Crash? then
      RestartOk(d, Performed(Numbered(w, t), t, v.k).disk);
      Crashed(d, w, t, v.k)
    else Completed(w, t)
  }

  // ---- No frame counter is sent twice ----------------------------------------------------

  ghost predicate Below(log: seq<Tx>, session: nat, next: nat) {
    forall i :: 0 <= i < |log| && log[i].session == session ==> log[i].fcnt < next
  }

  ghost predicate Known(log: seq<Tx>, nextSession: nat) { forall i :: 0 <= i < |log| ==> log[i].session < nextSession }

  ghost predicate Rising(log: seq<Tx>) {
    forall i, j :: 0 <= i < j < |log| && log[i].session == log[j].session ==> log[i].fcnt < log[j].fcnt
  }

  /** Within a session counters rise, and the used ones lie below the counter in
      memory and the one on disk. */
  ghost predicate CountersGood(w: World) {
    && w.session < w.nextSession && w.diskSession < w.nextSession
    && Known(w.uplinks, w.nextSession) && Rising(w.uplinks)
    && (w.mac.session.joined ==> Below(w.uplinks, w.session, w.mac.session.fcntUp))
    && (w.disk.Some? && w.disk.value.session.joined ==> Below(w.uplinks, w.diskSession, w.disk.value.session.fcntUp))
  }

  lemma AppendRising(log: seq<Tx>, session: nat, n: nat, nextSession: nat)
    requires Rising(log) && Below(log, session, n) && Known(log, nextSession) && session < nextSession
    ensures var r := log + [Tx(session, n)]; Rising(r) && Below(r, session, n + 1) && Known(r, nextSession)
  {}

  /** While the effects of a call come out, the counter spent is the disk's. */
  lemma CountersPerformed(w: World, t: Trip, k: nat)
    requires Fair(w.mac, t) && CountersGood(w) && k <= |t.effects|
    ensures var seen := Performed(Numbered(w, t), t, k);
      && seen.session == w.session && seen.nextSession == w.nextSession && seen.diskSession < w.nextSession
      && Known(seen.uplinks, w.nextSession) && Rising(seen.uplinks)
      && (seen.disk.Some? && seen.disk.value.session.joined ==>
          Below(seen.uplinks, seen.diskSession, seen.disk.value.session.fcntUp))
      && (k == |t.effects| && t.m.session.joined ==> Below(seen.uplinks, w.session, t.m.session.fcntUp))
  {
    if k == 2 && !t.join {
      AppendRising(w.uplinks, w.session, w.mac.session.fcntUp, w.nextSession);
    }
  }

  lemma CountersStayGood(d: Device, w: World, v: Move)
    requires d.Ok() && Basic(w) && CountersGood(w) && Possible(d, w, v)
    ensures CountersGood(Moved(d, w, v))
  {
    var t := TripOf(d, w.mac, v.call);
    TripFair(d, w.mac, v.call);
    var k := if v.Crash? then v.k else |t.effects|;
    CountersPerformed(w, t, k);
    if v.Crash? {
      DiskStays(w, t, k);
      RestartOk(d, Performed(Numbered(w, t), t, k).disk);
      CountersRestarted(Performed(Numbered(w, t), t, k), Restarted(d, Performed(Numbered(w, t), t, k).disk));
    } else {
      CountersReturned(Performed(Numbered(w, t), t, k), t);
    }
  }

  lemma CountersRestarted(w: World, up: Mac)
    requires w.session < w.nextSession && w.diskSession < w.nextSession && Known(w.uplinks, w.nextSession) && Rising(w.uplinks)
    requires w.disk.Some? && w.disk.value.session.joined ==>
      up.session == w.disk.value.session && Below(w.uplinks, w.diskSession, w.disk.value.session.fcntUp)
    requires w.disk.None? || !w.disk.value.session.joined ==> !up.session.joined
    ensures CountersGood(Rebooted(w, up))
  {}

  lemma CountersReturned(w: World, t: Trip)
    requires w.session < w.nextSession && w.diskSession < w.nextSession && Known(w.uplinks, w.nextSession) && Rising(w.uplinks)
    requires w.disk.Some? && w.disk.value.session.joined ==> Below(w.uplinks, w.diskSession, w.disk.value.session.fcntUp)
    requires t.m.session.joined ==> Below(w.uplinks, w.session, t.m.session.fcntUp)
    requires FairEnd(t.m, t.done, t.joins, t.heard)
    ensures CountersGood(Returned(w, t))
  {}

  /** The counter logged with an uplink is the one its frame carries: a network
      expecting it reads the frame, and the 16 bits on the air are its. */
  lemma LoggedCounterIsSent(d: Device, m: Mac, c: Call)
    requires d.Ok() && m.Ok() && c.Ok() && c.UplinkCall? && |Started(d, m, c).1| == 2
    ensures Started(d, m, c).1[1].Send?
    ensures var read := NetworkRead(d.aes, m.session, Started(d, m, c).1[1].frame);
      read.Some? && read.value.count == Low16(m.session.fcntUp)
  {
    UplinkArrives(d, m, c.payload, c.port, c.confirmed);
  }

  // ---- No DevNonce is sent twice ---------------------------------------------------------

  function DiskNonce(w: World): int { if w.disk.Some? then w.disk.value.saved.devNonce else -1 }

  /** The DevNonce of draw `k`, the first being `base`. */
  function NonceAt(base: nat, k: nat): (n: nat)
    requires base <= 0xFFFF
    ensures n <= 0xFFFF
    decreases k
  {
    if k == 0 then base else NextNonce(NonceAt(base, k - 1), 0)
  }

  ghost predicate DrawnBelow(log: seq<Request>, last: nat) { forall i :: 0 <= i < |log| ==> log[i].draw <= last }

  ghost predicate DrawsRise(log: seq<Request>, base: nat)
    requires base <= 0xFFFF
  {
    && (forall i :: 0 <= i < |log| ==> log[i].nonce == NonceAt(base, log[i].draw))
    && (forall i, j :: 0 <= i < j < |log| ==> log[i].draw < log[j].draw)
  }

  /** Requests carry ever later draws, and the disk knows the last draw that may
      have been sent. */
  ghost predicate NoncesGood(w: World) {
    && w.base <= 0xFFFF && DrawsRise(w.requests, w.base)
    && (w.mac.nonceCounter >= 0 ==> w.mac.nonceCounter == NonceAt(w.base, w.draw))
    && (DiskNonce(w) < 0 ==> w.requests == [])
    && (DiskNonce(w) >= 0 ==> DiskNonce(w) == NonceAt(w.base, w.diskDraw) && w.diskDraw <= w.draw
                              && w.mac.nonceCounter >= 0 && DrawnBelow(w.requests, w.diskDraw))
  }

  /** The draw of a call, for its counter. */
  ghost predicate DrawnFor(w: World, n: World, t: Trip) {
    && n == w.(base := n.base, draw := n.draw) && n.base <= 0xFFFF
    && (t.m.nonceCounter >= 0 ==> t.m.nonceCounter == NonceAt(n.base, n.draw))
    && (t.join ==> t.m.nonceCounter >= 0 && t.m.devNonce == t.m.nonceCounter)
    && (DiskNonce(w) >= 0 ==> n.base == w.base && w.diskDraw <= n.draw && (t.join ==> w.diskDraw < n.draw)
                              && t.m.nonceCounter >= 0)
  }

  lemma NextNonceAt(base: nat, k: nat, counter: int)
    requires base <= 0xFFFF && counter == NonceAt(base, k)
    ensures NextNonce(counter, 0) == NonceAt(base, k + 1) == (counter + 1) % 0x10000
  {}

  lemma NoncesNumbered(w: World, t: Trip)
    requires Fair(w.mac, t) && NoncesGood(w)
    ensures DrawnFor(w, Numbered(w, t), t)
  {
    if t.join && w.mac.nonceCounter >= 0 {
      NextNonceAt(w.base, w.draw, w.mac.nonceCounter);
    }
  }

  lemma NoncesPerformed(w: World, n: World, t: Trip, k: nat)
    requires Fair(w.mac, t) && NoncesGood(w) && k <= |t.effects| && n == Numbered(w, t)
    ensures NoncesGood(Performed(n, t, k).(mac := t.m))
  {
    NoncesNumbered(w, t);
    DiskPerformed(n, t, k);
    if k == 2 && t.join {
      RequestLogged(w.requests, n.base, n.draw, if DiskNonce(w) < 0 then 0 else w.diskDraw);
    }
  }

  lemma RequestLogged(log: seq<Request>, base: nat, draw: nat, last: nat)
    requires base <= 0xFFFF && DrawsRise(log, base) && (log != [] ==> DrawnBelow(log, last) && last < draw)
    ensures var r := log + [Request(draw, NonceAt(base, draw))]; DrawsRise(r, base) && DrawnBelow(r, draw)
  {}

  lemma NoncesStayGood(d: Device, w: World, v: Move)
    requires d.Ok() && Basic(w) && NoncesGood(w) && Possible(d, w, v)
    ensures NoncesGood(Moved(d, w, v))
  {
    var t := TripOf(d, w.mac, v.call);
    TripFair(d, w.mac, v.call);
    var k := if v.Crash? then v.k else |t.effects|;
    NoncesPerformed(w, Numbered(w, t), t, k);
    var seen := Performed(Numbered(w, t), t, k);
    if v.Crash? {
      DiskStays(w, t, k);
      RestartOk(d, seen.disk);
      NoncesRestarted(seen, t, Restarted(d, seen.disk));
    } else {
      NoncesReturned(seen, t);
    }
  }

  lemma NoncesRestarted(w: World, t: Trip, up: Mac)
    requires NoncesGood(w.(mac := t.m)) && up.nonceCounter == DiskNonce(w)
    ensures NoncesGood(Rebooted(w, up))
  {}

  lemma NoncesReturned(w: World, t: Trip)
    requires NoncesGood(w.(mac := t.m)) && t.done.nonceCounter == t.m.nonceCounter
    ensures NoncesGood(Returned(w, t))
  {}

  // ---- All runs ---------------------------------------------------------------------------------

  /** Some call or crash leads from `w` to `r`. */
  ghost predicate StepBy(d: Device, w: World, r: World)
    requires d.Ok()
  {
    Basic(w) && exists v :: Possible(d, w, v) && Moved(d, w, v) == r
  }

  ghost function Steps(d: Device): (World, World) -> bool
    requires d.Ok()
  {
    (w, r) => StepBy(d, w, r)
  }

  /** Some run from power-on, with any calls and crashes, leads to `w`. */
  ghost predicate Reachable(d: Device, w: World)
    requires d.Ok()
  {
    exists n :: Path(Steps(d), Boot(d), w, n)
  }

  ghost predicate Good(w: World) { Basic(w) && CountersGood(w) && NoncesGood(w) }

  lemma BootGood(d: Device)
    requires d.Ok()
    ensures Good(Boot(d))
  {
    FreshOk(d);
  }

  lemma StepGood(d: Device, w: World, r: World)
    requires d.Ok() && Good(w) && StepBy(d, w, r)
    ensures Good(r)
  {
    var v :| Possible(d, w, v) && Moved(d, w, v) == r;
    CountersStayGood(d, w, v);
    NoncesStayGood(d, w, v);
  }

  lemma ReachableGood(d: Device, w: World)
    requires d.Ok() && Reachable(d, w)
    ensures Good(w)
  {
    BootGood(d);
    var n :| Path(Steps(d), Boot(d), w, n);
    forall s, r | Good(s) && Steps(d)(s, r) ensures Good(r) { StepGood(d, s, r); }
    PathKeeps(Steps(d), s => Good(s), Boot(d), w, n);
  }

  /** Whatever calls are made and wherever in them the device crashes, it is in
      a good state and no frame counter was sent twice under one session. */
  lemma NoCounterSentTwice(d: Device, w: World)
    requires d.Ok() && Reachable(d, w)
    ensures w.mac.Ok() && Rising(w.uplinks)
    ensures forall i, j :: 0 <= i < j < |w.uplinks| ==> w.uplinks[i] != w.uplinks[j]
  {
    ReachableGood(d, w);
  }

  lemma {:induction false} NonceAtIs(base: nat, k: nat)
    requires base <= 0xFFFF
    ensures NonceAt(base, k) == (base + k) % 0x10000
    decreases k
  {
    if k > 0 { NonceAtIs(base, k - 1); }
  }

  lemma SameResidue(base: nat, a: nat, b: nat)
    requires a <= b
    ensures (base + a) % 0x10000 == (base + b) % 0x10000 <==> (b - a) % 0x10000 == 0
  {}

  /** Two JoinRequests of any run carry the same DevNonce exactly when the draws
      between them are a multiple of 65536. Every draw counts, sent or not: a
      crash between persisting a nonce and sending it skips one. */
  lemma DevNoncesExact(d: Device, w: World, i: nat, j: nat)
    requires d.Ok() && Reachable(d, w) && i < j < |w.requests|
    ensures NonceGap(w.requests[i], w.requests[j], j - i)
  {
    ReachableGood(d, w);
    RequestsExact(w.requests, w.base, i, j);
  }

  /** How two requests `distance` apart in the log compare. */
  ghost predicate NonceGap(a: Request, b: Request, distance: nat) {
    var gap := b.draw - a.draw;
    gap >= distance && (a.nonce == b.nonce <==> gap % 0x10000 == 0) && (gap < 0x10000 ==> a.nonce != b.nonce)
  }

  lemma RequestsExact(r: seq<Request>, base: nat, i: nat, j: nat)
    requires base <= 0xFFFF && DrawsRise(r, base) && i < j < |r|
    ensures NonceGap(r[i], r[j], j - i)
  {
    DrawsSpread(r, base, i, j);
    NonceAtIs(base, r[i].draw);
    NonceAtIs(base, r[j].draw);
    SameResidue(base, r[i].draw, r[j].draw);
  }

  lemma {:induction false} DrawsSpread(log: seq<Request>, base: nat, i: nat, j: nat)
    requires base <= 0xFFFF && DrawsRise(log, base) && i < j < |log|
    ensures j - i <= log[j].draw - log[i].draw
    decreases j
  {
    if i < j - 1 { DrawsSpread(log, base, i, j - 1); }
  }

  /** A join nobody answers: it persists a nonce and sends it. */
  ghost predicate Unanswered(d: Device, m: Mac, t: Trip) {
    d.Ok() && Fair(m, t) && t.join && t.random == 0 && !t.joins && t.heard.None? && t.done == t.m
  }

  lemma UnansweredJoin(d: Device, m: Mac) returns (c: Call, t: Trip)
    requires d.Ok() && m.Ok()
    ensures c.Ok() && t == TripOf(d, m, c) && Unanswered(d, m, t)
  {
    c := JoinCall(0, false, None);
    t := TripOf(d, m, c);
    TripFair(d, m, c);
  }

  lemma TripSteps(d: Device, w: World, c: Call, t: Trip)
    requires d.Ok() && Basic(w) && c.Ok() && t == TripOf(d, w.mac, c) && Fair(w.mac, t)
    ensures StepBy(d, w, Completed(w, t)) && Basic(Completed(w, t))
    ensures |t.effects| == 2 ==> StepBy(d, w, Crashed(d, w, t, 1)) && Basic(Crashed(d, w, t, 1))
  {
    assert Possible(d, w, Run(c)) && Moved(d, w, Run(c)) == Completed(w, t);
    assert |t.effects| == 2 ==> Possible(d, w, Crash(c, 1)) && Moved(d, w, Crash(c, 1)) == Crashed(d, w, t, 1);
  }

  ghost predicate Covers(d: Device, step: (World, World) -> bool)
    requires d.Ok()
  {
    forall a: World, b: World {:trigger StepBy(d, a, b)} :: StepBy(d, a, b) ==> step(a, b)
  }

  /** One request sent with draw 0, draw 1 skipped, `k` more sent since. */
  ghost predicate SkippedOne(w: World, k: nat) {
    && Basic(w) && w.mac.nonceCounter >= 0 && w.draw == k + 1
    && |w.requests| == k + 1 && w.requests[0].draw == 0 && (k > 0 ==> w.requests[k].draw == k + 1)
  }

  ghost predicate SentOne(w: World) {
    Basic(w) && w.mac.nonceCounter >= 0 && w.draw == 0 && |w.requests| == 1 && w.requests[0].draw == 0
  }

  lemma RequestSent(d: Device, w: World, t: Trip)
    requires Unanswered(d, w.mac, t)
    ensures var n := Numbered(w, t); var r := Completed(w, t);
      r.draw == n.draw && r.requests == w.requests + [Request(n.draw, t.m.devNonce)] && r.mac.nonceCounter >= 0
  {}

  lemma OneMore(d: Device, step: (World, World) -> bool, w: World, k: nat) returns (r: World)
    requires d.Ok() && Covers(d, step) && SkippedOne(w, k)
    ensures step(w, r) && SkippedOne(r, k + 1)
  {
    var c, t := UnansweredJoin(d, w.mac);
    TripSteps(d, w, c, t);
    RequestSent(d, w, t);
    r := Completed(w, t);
  }

  lemma FirstJoin(d: Device, step: (World, World) -> bool, w: World) returns (r: World)
    requires d.Ok() && Covers(d, step) && Basic(w) && w.mac.nonceCounter < 0 && w.requests == []
    ensures step(w, r) && SentOne(r)
  {
    var c, t := UnansweredJoin(d, w.mac);
    TripSteps(d, w, c, t);
    RequestSent(d, w, t);
    r := Completed(w, t);
  }

  /** A join cut off between persisting its nonce and sending it. */
  lemma CutOff(d: Device, step: (World, World) -> bool, w: World) returns (r: World)
    requires d.Ok() && Covers(d, step) && SentOne(w)
    ensures step(w, r) && SkippedOne(r, 0)
  {
    var c, t := UnansweredJoin(d, w.mac);
    TripSteps(d, w, c, t);
    CutShort(d, w, t);
    r := Crashed(d, w, t, 1);
  }

  lemma CutShort(d: Device, w: World, t: Trip)
    requires Basic(w) && Unanswered(d, w.mac, t) && w.mac.nonceCounter >= 0
    ensures var r := Crashed(d, w, t, 1);
      r.draw == w.draw + 1 && r.requests == w.requests && r.mac.nonceCounter == t.m.nonceCounter >= 0
  {
    DiskPerformed(Numbered(w, t), t, 1);
    DiskStays(w, t, 1);
    RestartOk(d, Performed(Numbered(w, t), t, 1).disk);
  }

  lemma {:induction false} Climb(d: Device, step: (World, World) -> bool, w: World, k: nat, n: nat) returns (r: World)
    requires d.Ok() && Covers(d, step) && SkippedOne(w, k)
    ensures Path(step, w, r, n) && SkippedOne(r, k + n)
    decreases n
  {
    if n == 0 {
      r := w;
    } else {
      var m := OneMore(d, step, w, k);
      r := Climb(d, step, m, k + 1, n - 1);
      PathFrom(step, w, m, r, n - 1);
    }
  }

  lemma SkipThenJoin(d: Device, step: (World, World) -> bool, boot: World, n: nat) returns (w: World)
    requires d.Ok() && Covers(d, step) && Basic(boot) && boot.mac.nonceCounter < 0 && boot.requests == []
    ensures Path(step, boot, w, n + 2) && SkippedOne(w, n)
  {
    var once := FirstJoin(d, step, boot);
    var twice := CutOff(d, step, once);
    w := Climb(d, step, twice, 0, n);
    PathFrom(step, once, twice, w, n);
    PathFrom(step, boot, once, w, n + 1);
  }

  lemma RepeatsAfter(d: Device, w: World, n: nat)
    requires d.Ok() && Reachable(d, w) && SkippedOne(w, n) && n > 0
    ensures w.requests[0].nonce == w.requests[n].nonce <==> (n + 1) % 0x10000 == 0
  {
    DevNoncesExact(d, w, 0, n);
  }

  lemma SkipAtLength(d: Device, length: nat) returns (w: World)
    requires d.Ok() && length > 1 && length % 0x10000 == 0
    ensures Reachable(d, w) && |w.requests| == length && w.requests[0].nonce == w.requests[length - 1].nonce
  {
    BootGood(d);
    w := SkipThenJoin(d, Steps(d), Boot(d), length - 1);
    RepeatsAfter(d, w, length - 1);
  }

  /** So 65536 JoinRequests in a row need not all differ: after one skipped
      nonce the 65536th repeats the first. */
  lemma SkippedNonceRepeats(d: Device) returns (w: World)
    requires d.Ok()
    ensures Reachable(d, w) && |w.requests| == 0x10000 && w.requests[0].nonce == w.requests[0xFFFF].nonce
  {
    w := SkipAtLength(d, 0x10000);
  }

  // ---- Liveness -----------------------------------------------------------------------------------

  /** An uplink call in whose windows no verified downlink comes in. */
  predicate Unheard(d: Device, m: Mac, c: Call)
    requires d.Ok() && m.Ok()
  {
    c.UplinkCall? && c.Ok() && !HearsNow(d, m, c)
  }

  ghost predicate AllUnheard(d: Device, m: Mac, calls: seq<Call>)
    requires d.Ok() && m.Ok()
    decreases |calls|
  {
    calls == [] || (Unheard(d, m, calls[0]) && AllUnheard(d, Finished(d, m, calls[0]), calls[1..]))
  }

  function After(d: Device, m: Mac, calls: seq<Call>): (r: Mac)
    requires d.Ok() && m.Ok() && AllUnheard(d, m, calls)
    ensures r.Ok()
    decreases |calls|
  {
    if calls == [] then m else After(d, Finished(d, m, calls[0]), calls[1..])
  }

  lemma UnheardStep(d: Device, m: Mac, c: Call)
    requires d.Ok() && m.Ok() && m.session.joined && Unheard(d, m, c)
    ensures var r := Finished(d, m, c);
      if m.uplinks < 95 then r.uplinks == m.uplinks + 1 && r.session.joined
      else m.uplinks == 95 && !r.session.joined && r.uplinks == 0
    ensures m.uplinks == 95 ==> |Started(d, m, c).1| == 1
  {
    UnheardStart(d, m, c.payload, c.port, c.confirmed);
  }

  lemma ProbedCount(d: Device, m: Mac)
    requires m.Ok()
    ensures var (r, forgotten) := Probed(d, m);
      && (forgotten <==> m.uplinks == 95) && r.uplinks == (if forgotten then 0 else m.uplinks + 1)
      && r.session == if forgotten then NoSession() else m.session
  {}

  lemma UnheardStart(d: Device, m: Mac, payload: Bytes, port: Byte, confirmed: bool)
    requires d.Ok() && m.Ok() && m.session.joined
    ensures var (r, effects) := UplinkStarted(d, m, payload, port, confirmed);
      if m.uplinks < 95 then r.uplinks == m.uplinks + 1 && r.session.joined
      else m.uplinks == 95 && !r.session.joined && r.uplinks == 0 && |effects| == 1
  {
    ProbedCount(d, m);
  }

  /** Counting from the last verified downlink, a joined session lasts through
      95 uplink calls and is forgotten on exactly the 96th. */
  lemma {:induction false} ForgottenOnThe96th(d: Device, m: Mac, calls: seq<Call>)
    requires d.Ok() && m.Ok() && m.session.joined && AllUnheard(d, m, calls) && m.uplinks + |calls| <= 96
    ensures var r := After(d, m, calls);
      && (m.uplinks + |calls| < 96 ==> r.session.joined && r.uplinks == m.uplinks + |calls|
                                       && r.unanswered == r.uplinks / LINK_CHECK_EVERY)
      && (m.uplinks + |calls| == 96 ==> !r.session.joined)
    decreases |calls|
  {
    if calls != [] {
      UnheardStep(d, m, calls[0]);
      if m.uplinks < 95 { ForgottenOnThe96th(d, Finished(d, m, calls[0]), calls[1..]); }
    }
  }
}
