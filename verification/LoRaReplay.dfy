/** Downlinks over runs with crashes: which accepted frames can be accepted
    again, exactly. */
module LoRaReplay {
  import opened Wrappers
  import opened BitMath
  import opened LoRaCrypto
  import opened LoRaMac
  import opened LoRaLink
  import opened LoRaRuns
  import opened Paths

  // ---- What the log says of a session -----------------------------------------------

  /** An acceptance under session `n` that no restart has undone. */
  predicate Standing(e: Hearing, n: nat) { e.session == n && e.fate != Lost }

  /** `next` is one past the last standing counter of session `n`. */
  ghost predicate NextAfter(log: seq<Hearing>, n: nat, next: nat) {
    && (forall i :: 0 <= i < |log| && Standing(log[i], n) ==> log[i].fcnt < next)
    && (next > 0 ==> exists i :: 0 <= i < |log| && Standing(log[i], n) && log[i].fcnt == next - 1)
  }

  /** Counters once expected under session `n` are not above `next`, and the
      frames were accepted under its address and key. */
  ghost predicate Under(log: seq<Hearing>, n: nat, s: Session) {
    forall i :: 0 <= i < |log| && log[i].session == n ==>
      log[i].expected <= s.fcntDown && log[i].under.devAddr == s.devAddr && log[i].under.nwkSKey == s.nwkSKey
  }

  ghost predicate Accounts(log: seq<Hearing>, n: nat, s: Session) { NextAfter(log, n, s.fcntDown) && Under(log, n, s) }

  ghost predicate Windowed(log: seq<Hearing>, nextSession: nat) {
    forall i :: 0 <= i < |log| ==>
      log[i].session < nextSession && log[i].expected <= log[i].fcnt < log[i].expected + 0x10000
  }

  /** Within a session a counter is not followed by one as low, unless a restart
      undid its acceptance before it reached the disk. */
  ghost predicate RisesUnlessLost(log: seq<Hearing>) {
    forall i, j :: 0 <= i < j < |log| && log[i].session == log[j].session && log[i].fcnt >= log[j].fcnt ==>
      log[i].fate == Lost
  }

  /** A session number stands for one address and key. */
  ghost predicate OneKey(log: seq<Hearing>) {
    forall i, j :: 0 <= i < |log| && 0 <= j < |log| && log[i].session == log[j].session ==>
      log[i].under.devAddr == log[j].under.devAddr && log[i].under.nwkSKey == log[j].under.nwkSKey
  }

  /** The expected counter in memory accounts for all standing acceptances, and
      the one on disk for those a restart would leave standing. */
  ghost predicate HeardGood(w: World) {
    && w.session < w.nextSession && w.diskSession < w.nextSession
    && Windowed(w.heard, w.nextSession) && RisesUnlessLost(w.heard) && OneKey(w.heard)
    && (w.mac.session.joined ==> Accounts(w.heard, w.session, w.mac.session))
    && (w.disk.Some? && w.disk.value.session.joined ==>
          Accounts(Refated(w.heard, Lost), w.diskSession, w.disk.value.session))
  }

  lemma RefateTwice(log: seq<Hearing>, fate: Fate)
    requires fate != Fresh
    ensures Refated(Refated(log, fate), Lost) == Refated(log, fate)
  {}

  lemma KeptAccounts(log: seq<Hearing>, n: nat, s: Session)
    requires Accounts(log, n, s)
    ensures Accounts(Refated(log, Kept), n, s)
  {
    var r := Refated(log, Kept);
    if s.fcntDown > 0 {
      var i :| 0 <= i < |log| && Standing(log[i], n) && log[i].fcnt == s.fcntDown - 1;
      assert Standing(r[i], n) && r[i].fcnt == s.fcntDown - 1;
    }
  }

  lemma RefatedRises(log: seq<Hearing>, fate: Fate, nextSession: nat)
    requires Windowed(log, nextSession) && RisesUnlessLost(log) && OneKey(log)
    ensures Windowed(Refated(log, fate), nextSession) && RisesUnlessLost(Refated(log, fate)) && OneKey(Refated(log, fate))
  {}

  // ---- Steps -----------------------------------------------------------------------------

  /** The same downlinks are accepted under both. */
  predicate SameReceiver(s: Session, t: Session) {
    s.fcntDown == t.fcntDown && s.devAddr == t.devAddr && s.nwkSKey == t.nwkSKey
  }

  /** The session persisted is the one in memory. */
  lemma HeardPersisted(w: World, i: Image)
    requires HeardGood(w) && (i.session.joined ==> w.mac.session.joined && SameReceiver(i.session, w.mac.session))
    ensures HeardGood(OnDisk(w, i))
  {
    RefateTwice(w.heard, Kept);
    RefatedRises(w.heard, Kept, w.nextSession);
    if w.mac.session.joined { KeptAccounts(w.heard, w.session, w.mac.session); }
  }

  lemma HeardRestarted(w: World, up: Mac)
    requires HeardGood(w)
    requires w.disk.Some? && w.disk.value.session.joined ==> up.session == w.disk.value.session
    requires w.disk.None? || !w.disk.value.session.joined ==> !up.session.joined
    ensures HeardGood(Rebooted(w, up))
  {
    RefateTwice(w.heard, Lost);
    RefatedRises(w.heard, Lost, w.nextSession);
  }

  /** The log with one more acceptance, at or past the expected counter. */
  lemma HeardOne(log: seq<Hearing>, n: nat, s: Session, e: Hearing, nextSession: nat)
    requires Accounts(log, n, s) && Windowed(log, nextSession) && RisesUnlessLost(log) && OneKey(log) && n < nextSession
    requires e.session == n && e.under == s && e.expected == s.fcntDown && e.fate == Fresh
    requires s.fcntDown <= e.fcnt < s.fcntDown + 0x10000
    ensures Accounts(log + [e], n, s.(fcntDown := e.fcnt + 1))
    ensures Windowed(log + [e], nextSession) && RisesUnlessLost(log + [e]) && OneKey(log + [e])
  {
    assert (log + [e])[|log|] == e;
  }

  /** The disk does not know of it yet: after a restart it would be as before. */
  lemma UnknownToDisk(log: seq<Hearing>, n: nat, s: Session, e: Hearing)
    requires Accounts(Refated(log, Lost), n, s) && e.fate == Fresh
    requires e.session == n ==> e.expected <= s.fcntDown && e.under.devAddr == s.devAddr && e.under.nwkSKey == s.nwkSKey
    ensures Accounts(Refated(log + [e], Lost), n, s)
  {
    var r, q := Refated(log, Lost), Refated(log + [e], Lost);
    assert q == r + [e.(fate := Lost)];
    if s.fcntDown > 0 {
      var i :| 0 <= i < |r| && Standing(r[i], n) && r[i].fcnt == s.fcntDown - 1;
      assert Standing(q[i], n);
    }
  }

  /** A new session number has no acceptances yet. */
  lemma NewSession(log: seq<Hearing>, n: nat, s: Session)
    requires Windowed(log, n) && s.fcntDown == 0
    ensures Accounts(log, n, s)
  {}

  lemma HeardReturned(w: World, t: Trip)
    requires HeardGood(w.(mac := t.m)) && FairEnd(t.m, t.done, t.joins, t.heard)
    requires t.heard.Some? ==> !t.joins && t.m.session.fcntDown <= 0xFFFF_FFFF
                               && w.disk == Some(ImageOf(t.m)) && w.diskSession == w.session
    ensures HeardGood(Returned(w, t))
  {
    if t.joins {
      NewSession(w.heard, w.nextSession, t.done.session);
    } else if t.heard.Some? {
      var r := t.heard.value;
      var e := Hearing(w.session, t.m.session, r.fcnt, r.data, t.m.session.fcntDown, Fresh);
      HeardOne(w.heard, w.session, t.m.session, e, w.nextSession);
      UnknownToDisk(w.heard, w.session, t.m.session, e);
    }
  }

  lemma HeardPerformed(w: World, t: Trip, k: nat)
    requires Fair(w.mac, t) && HeardGood(w) && k <= |t.effects|
    ensures var seen := Performed(Numbered(w, t), t, k);
      && HeardGood(seen.(mac := w.mac)) && seen.session == w.session
      && (k > 0 ==> seen.disk == Some(ImageOf(t.m)) && seen.diskSession == w.session)
  {
    var n := Numbered(w, t);
    EffectsHeard(n, t, k, ImageOf(t.m));
    if k > 0 { HeardPersisted(n, ImageOf(t.m)); }
  }

  /** Of the effects, only the persist matters here. */
  lemma EffectsHeard(n: World, t: Trip, k: nat, i: Image)
    requires k <= |t.effects| <= 2
    requires (|t.effects| > 0 ==> t.effects[0] == Persist(i)) && (|t.effects| == 2 ==> t.effects[1].Send?)
    ensures var seen := Performed(n, t, k);
      seen == (if k == 0 then n else OnDisk(n, i)).(uplinks := seen.uplinks, requests := seen.requests)
  {}

  /** Starting a call spends an uplink counter at most. */
  lemma StartedHeard(w: World, m: Mac, t: Trip)
    requires HeardGood(w.(mac := m)) && Fair(m, t)
    ensures HeardGood(w.(mac := t.m))
    ensures t.heard.Some? ==> t.m.session.fcntDown == m.session.fcntDown
  {
    assert t.m.session.joined ==> m.session.joined && t.m.session == m.session.(fcntUp := t.m.session.fcntUp);
  }

  lemma HeardCompleted(w: World, t: Trip)
    requires Fair(w.mac, t) && HeardGood(w) && w.mac.session.fcntDown <= 0xFFFF_FFFF
    ensures HeardGood(Completed(w, t))
  {
    var seen := Performed(Numbered(w, t), t, |t.effects|);
    HeardPerformed(w, t, |t.effects|);
    StartedHeard(seen, w.mac, t);
    HeardReturned(seen, t);
  }

  lemma HeardCrashed(d: Device, w: World, t: Trip, k: nat)
    requires Basic(w) && Fair(w.mac, t) && HeardGood(w) && k <= |t.effects|
    ensures HeardGood(Crashed(d, w, t, k))
  {
    HeardPerformed(w, t, k);
    DiskStays(w, t, k);
    HeardRebooted(d, Performed(Numbered(w, t), t, k), w.mac);
  }

  lemma HeardRebooted(d: Device, w: World, m: Mac)
    requires HeardGood(w.(mac := m)) && (w.disk.Some? ==> SavedWell(w.disk.value))
    ensures HeardGood(Rebooted(w, Restarted(d, w.disk)))
  {
    RestartOk(d, w.disk);
    HeardRestarted(w.(mac := m), Restarted(d, w.disk));
  }

  // ---- Frames in the log are authentic ------------------------------------------------------

  /** The entry's frame is authentic at its counter. */
  ghost predicate Proper(aes: Aes, e: Hearing) {
    aes.Lawful() && |e.under.devAddr| == 4 && Authentic(aes, e.under, e.data, e.fcnt) && Low16(e.fcnt) == Fcnt16(e.data)
  }

  ghost predicate AllProper(log: seq<Hearing>, proper: Hearing -> bool) { forall i :: 0 <= i < |log| ==> proper(log[i]) }

  /** It does not depend on an entry's fate. */
  ghost predicate FateFree(proper: Hearing -> bool) { forall e: Hearing, f: Fate :: proper(e) ==> proper(e.(fate := f)) }

  lemma RefatedProper(log: seq<Hearing>, fate: Fate, proper: Hearing -> bool)
    requires AllProper(log, proper) && FateFree(proper)
    ensures AllProper(Refated(log, fate), proper)
  {}

  lemma ReceptionProper(d: Device, m: Mac, c: Call, session: nat)
    requires d.Ok() && m.Ok() && c.Ok()
    ensures var t := TripOf(d, m, c);
      t.heard.Some? && t.m.session.fcntDown <= 0xFFFF_FFFF ==>
        Proper(d.aes, Hearing(session, t.m.session, t.heard.value.fcnt, t.heard.value.data, t.m.session.fcntDown, Fresh))
  {
    var t := TripOf(d, m, c);
    if t.heard.Some? { ReconstructionExact(t.m.session.fcntDown, Fcnt16(t.heard.value.data)); }
  }

  lemma PerformedProper(w: World, t: Trip, k: nat, proper: Hearing -> bool)
    requires Fair(w.mac, t) && k <= |t.effects| && AllProper(w.heard, proper) && FateFree(proper)
    ensures AllProper(Performed(Numbered(w, t), t, k).heard, proper)
    ensures Performed(Numbered(w, t), t, k).session == w.session
  {
    RefatedProper(w.heard, Kept, proper);
  }

  lemma CompletedProper(w: World, t: Trip, proper: Hearing -> bool)
    requires Fair(w.mac, t) && AllProper(w.heard, proper) && FateFree(proper)
    requires t.heard.Some? ==>
      proper(Hearing(w.session, t.m.session, t.heard.value.fcnt, t.heard.value.data, t.m.session.fcntDown, Fresh))
    ensures AllProper(Completed(w, t).heard, proper)
  {
    PerformedProper(w, t, |t.effects|, proper);
  }

  lemma CrashedProper(d: Device, w: World, t: Trip, k: nat, proper: Hearing -> bool)
    requires Fair(w.mac, t) && k <= |t.effects| && AllProper(w.heard, proper) && FateFree(proper)
    ensures AllProper(Crashed(d, w, t, k).heard, proper)
  {
    PerformedProper(w, t, k, proper);
    RefatedProper(Performed(Numbered(w, t), t, k).heard, Lost, proper);
  }

  // ---- All runs whose expected counters fit 32 bits -------------------------------------------

  ghost function SmallSteps(d: Device): (World, World) -> bool
    requires d.Ok()
  {
    (w: World, r) => StepBy(d, w, r) && w.mac.session.fcntDown <= 0xFFFF_FFFF
  }

  /** Some run from power-on, with any calls and crashes, leads to `w`. */
  ghost predicate SmallReachable(d: Device, w: World)
    requires d.Ok()
  {
    Leads(SmallSteps(d), Boot(d), w)
  }

  ghost function ProperFor(aes: Aes): Hearing -> bool { (e: Hearing) => Proper(aes, e) }

  ghost predicate Told(d: Device, w: World) { HeardGood(w) && AllProper(w.heard, ProperFor(d.aes)) }

  lemma MoveTold(d: Device, w: World, v: Move)
    requires d.Ok() && Basic(w) && Told(d, w) && Possible(d, w, v) && w.mac.session.fcntDown <= 0xFFFF_FFFF
    ensures Told(d, Moved(d, w, v))
  {
    var t := TripOf(d, w.mac, v.call);
    TripFair(d, w.mac, v.call);
    if v.Crash? {
      HeardCrashed(d, w, t, v.k);
      CrashedProper(d, w, t, v.k, ProperFor(d.aes));
    } else {
      HeardCompleted(w, t);
      ReceptionProper(d, w.mac, v.call, w.session);
      SmallStart(w.mac, t);
      CompletedProper(w, t, ProperFor(d.aes));
    }
  }

  lemma SmallStart(m: Mac, t: Trip)
    requires Fair(m, t) && m.session.fcntDown <= 0xFFFF_FFFF
    ensures t.heard.Some? ==> t.m.session.fcntDown <= 0xFFFF_FFFF
  {}

  lemma StepTold(d: Device, w: World, r: World)
    requires d.Ok() && Told(d, w) && StepBy(d, w, r) && w.mac.session.fcntDown <= 0xFFFF_FFFF
    ensures Told(d, r)
  {
    var v :| Possible(d, w, v) && Moved(d, w, v) == r;
    MoveTold(d, w, v);
  }

  ghost function ToldBy(d: Device): World -> bool
    requires d.Ok()
  {
    w => Told(d, w)
  }

  lemma StepsTold(d: Device)
    requires d.Ok()
    ensures Inductive(SmallSteps(d), ToldBy(d))
  {
    forall s, r | Told(d, s) && SmallSteps(d)(s, r) ensures Told(d, r) { StepTold(d, s, r); }
  }

  lemma BootTold(d: Device)
    requires d.Ok()
    ensures ToldBy(d)(Boot(d))
  {}

  lemma ReachableTold(d: Device, w: World)
    requires d.Ok() && SmallReachable(d, w)
    ensures Told(d, w)
  {
    BootTold(d);
    StepsTold(d);
    LeadsKeeps(SmallSteps(d), ToldBy(d), Boot(d), w);
  }

  // ---- Main results -----------------------------------------------------------------------------

  /** Over all calls and crash points: when a session's counter is followed by
      one as low, a restart fell between its acceptance and the first persist
      after it. With no such restart accepted counters rise strictly. */
  lemma HeardTwiceOnlyIfLost(d: Device, w: World, i: nat, j: nat)
    requires d.Ok() && SmallReachable(d, w) && i < j < |w.heard| && w.heard[i].session == w.heard[j].session
    ensures w.heard[i].fcnt >= w.heard[j].fcnt ==> w.heard[i].fate == Lost
  {
    ReachableTold(d, w);
  }

  /** Nor is the same frame accepted twice then. */
  lemma NoFrameTwice(d: Device, w: World, i: nat, j: nat)
    requires d.Ok() && SmallReachable(d, w) && i < j < |w.heard| && w.heard[i].session == w.heard[j].session
    requires w.heard[i].fate != Lost && w.heard[j].fcnt <= 0xFFFF_FFFF
    requires |w.heard[i].under.devAddr| == 4 && |w.heard[i].data| >= 12
    requires Distinguishing(d.aes, w.heard[i].under, w.heard[i].data[..|w.heard[i].data| - 4])
    ensures w.heard[i].data != w.heard[j].data
  {
    ReachableTold(d, w);
    ToldFrames(d, w, i, j);
  }

  lemma ToldFrames(d: Device, w: World, i: nat, j: nat)
    requires d.Ok() && Told(d, w) && i < j < |w.heard| && w.heard[i].session == w.heard[j].session
    requires w.heard[i].fate != Lost && w.heard[j].fcnt <= 0xFFFF_FFFF
    requires |w.heard[i].under.devAddr| == 4 && |w.heard[i].data| >= 12
    requires Distinguishing(d.aes, w.heard[i].under, w.heard[i].data[..|w.heard[i].data| - 4])
    ensures w.heard[i].data != w.heard[j].data
  {
    ToldPair(d, w, i, j);
    SameFrame(d.aes, w.heard[i], w.heard[j]);
  }

  lemma ToldPair(d: Device, w: World, i: nat, j: nat)
    requires Told(d, w) && i < j < |w.heard| && w.heard[i].session == w.heard[j].session && w.heard[i].fate != Lost
    ensures Proper(d.aes, w.heard[i]) && Proper(d.aes, w.heard[j]) && w.heard[i].fcnt < w.heard[j].fcnt
    ensures w.heard[i].under.devAddr == w.heard[j].under.devAddr && w.heard[i].under.nwkSKey == w.heard[j].under.nwkSKey
  {
    assert ProperFor(d.aes)(w.heard[i]) && ProperFor(d.aes)(w.heard[j]);
  }

  lemma AuthenticSame(aes: Aes, s: Session, t: Session, data: Bytes, n: nat)
    requires aes.Lawful() && |s.devAddr| == 4 && s.devAddr == t.devAddr && s.nwkSKey == t.nwkSKey
    ensures Authentic(aes, s, data, n) == Authentic(aes, t, data, n)
  {}

  lemma SameFrame(aes: Aes, a: Hearing, b: Hearing)
    requires Proper(aes, a) && Proper(aes, b) && a.under.devAddr == b.under.devAddr && a.under.nwkSKey == b.under.nwkSKey
    requires a.fcnt < b.fcnt <= 0xFFFF_FFFF && Distinguishing(aes, a.under, a.data[..|a.data| - 4])
    ensures a.data != b.data
  {
    if a.data == b.data {
      AuthenticSame(aes, a.under, b.under, a.data, b.fcnt);
      AuthenticAt(aes, a.under, a.data, a.fcnt, b.fcnt);
    }
  }

  /** No standing acceptance of its session is as late as this one: it was lost,
      and nothing was kept since that passed it. */
  ghost predicate Unpassed(log: seq<Hearing>, e: Hearing) {
    forall j :: 0 <= j < |log| && Standing(log[j], e.session) ==> log[j].fcnt < e.fcnt
  }

  /** Exactly which accepted frames the device would accept again now, in any
      reachable state with their session: those whose acceptance a restart undid
      before it was persisted, as long as nothing at or above them has been kept
      since; and, within 65536 of the end of the 32 bits, the first counters. */
  lemma ReplayExact(d: Device, w: World, e: Hearing)
    requires d.Ok() && SmallReachable(d, w) && Replayable(d, w, e)
    ensures Genuine(d.aes, w.mac, e.data) <==> Unpassed(w.heard, e) || e.fcnt + 0xFFFF_0000 < w.mac.session.fcntDown
    ensures Unpassed(w.heard, e) ==> e.fate == Lost
  {
    ReachableTold(d, w);
    ToldReplay(d, w, e);
  }

  /** A frame heard under the session now in memory, within 32 bits, whose MIC
      tells counters apart. */
  ghost predicate Replayable(d: Device, w: World, e: Hearing)
    requires d.Ok()
  {
    && w.mac.Ok() && w.mac.session.joined && w.mac.session.fcntDown <= 0xFFFF_FFFF
    && e in w.heard && e.session == w.session && e.fcnt <= 0xFFFF_FFFF && |e.data| >= 12
    && Distinguishing(d.aes, w.mac.session, e.data[..|e.data| - 4])
  }

  lemma ToldReplay(d: Device, w: World, e: Hearing)
    requires d.Ok() && Told(d, w) && Replayable(d, w, e)
    ensures Genuine(d.aes, w.mac, e.data) <==> Unpassed(w.heard, e) || e.fcnt + 0xFFFF_0000 < w.mac.session.fcntDown
    ensures Unpassed(w.heard, e) ==> e.fate == Lost
  {
    assert ProperFor(d.aes)(e);
    AcceptedExactly(d.aes, w.mac, e.data, e.fcnt);
    UnpassedIff(w.heard, w.mac.session, e);
  }

  lemma UnpassedIff(log: seq<Hearing>, s: Session, e: Hearing)
    requires Accounts(log, e.session, s) && e in log && e.expected <= e.fcnt < e.expected + 0x10000
    ensures Unpassed(log, e) <==> s.fcntDown <= e.fcnt < s.fcntDown + 0x10000
  {
    if s.fcntDown > 0 {
      var j :| 0 <= j < |log| && Standing(log[j], e.session) && log[j].fcnt == s.fcntDown - 1;
    }
  }

  // ---- A crash before the persist, and the same frame again ---------------------------------------

  /** The entry of a hearing, and where it stands. */
  ghost predicate HeardLast(w: World, n: nat, r: Reception, fate: Fate) {
    w.heard != [] && var e := w.heard[|w.heard| - 1]; e.session == n && e.fcnt == r.fcnt && e.data == r.data && e.fate == fate
  }

  lemma AfterHearing(w: World, t: Trip)
    requires Fair(w.mac, t) && t.heard.Some?
    ensures var r := Completed(w, t);
      && HeardLast(r, w.session, t.heard.value, Fresh) && r.session == w.session
      && r.disk == Some(ImageOf(t.m)) && r.diskSession == w.session && t.m.session.joined
  {}

  /** Power fails before anything else is persisted. */
  lemma AfterPowerCut(d: Device, w: World, m: Mac, n: nat, r: Reception)
    requires HeardLast(w, n, r, Fresh) && w.disk == Some(ImageOf(m)) && w.diskSession == n && m.session.joined && m.Ok()
    ensures var up := Restarted(d, w.disk); var x := Rebooted(w, up);
      && HeardLast(x, n, r, Lost) && x.session == n && up.session == m.session && |x.heard| == |w.heard|
      && up.uplinks == 0 && up.net.pending == []
  {
    SavedWellNow(m);
    RestartOk(d, w.disk);
    RestartQuiet(d, w.disk);
    LastLost(w.heard);
  }

  lemma RestartQuiet(d: Device, disk: Option<Image>)
    ensures Restarted(d, disk).uplinks == 0 && Restarted(d, disk).net.pending == []
  {}

  lemma LastLost(log: seq<Hearing>)
    requires log != [] && log[|log| - 1].fate == Fresh
    ensures var n := |log| - 1; Refated(log, Lost)[n] == log[n].(fate := Lost)
  {}

  lemma PowerCut(d: Device, w: World) returns (x: World)
    requires d.Ok() && Basic(w)
    ensures StepBy(d, w, x) && x == Rebooted(w, Restarted(d, w.disk)) && Basic(x)
  {
    var t := TripOf(d, w.mac, PersistCall);
    TripFair(d, w.mac, PersistCall);
    assert Possible(d, w, Crash(PersistCall, 0));
    x := Moved(d, w, Crash(PersistCall, 0));
  }

  lemma GenuineSame(aes: Aes, m: Mac, n: Mac, data: Bytes)
    requires aes.Lawful() && m.Ok() && n.Ok() && SameReceiver(m.session, n.session)
    ensures Genuine(aes, m, data) == Genuine(aes, n, data) && (|data| >= 12 ==> DownCount(m, data) == DownCount(n, data))
  {}

  /** An empty uplink just after a restart goes out. */
  lemma EmptyUplinkGoesOut(d: Device, m: Mac)
    requires d.Ok() && m.Ok() && m.session.joined && m.uplinks == 0 && m.net.pending == []
    ensures var (started, effects) := UplinkStarted(d, m, [], 1, false);
      |effects| == 2 && SameReceiver(started.session, m.session)
  {}

  /** And its receive windows are open to any frame. */
  lemma Listen(d: Device, m: Mac, data: Bytes) returns (c: Call)
    requires d.Ok() && m.Ok() && m.session.joined && m.uplinks == 0 && m.net.pending == []
    ensures c.Ok() && c.UplinkCall? && c.received == Some(data)
    ensures Receives(d, m, c) && SameReceiver(m.session, Started(d, m, c).0.session)
  {
    c := UplinkCall([], 1, false, true, Some(data), 0);
    EmptyUplinkGoesOut(d, m);
  }

  /** The log holds one frame accepted twice at one counter of one session. */
  ghost predicate AcceptedTwice(w: World) {
    var n := |w.heard|;
    n >= 2 && w.heard[n - 2].session == w.heard[n - 1].session && w.heard[n - 2].fcnt == w.heard[n - 1].fcnt
    && w.heard[n - 2].data == w.heard[n - 1].data && w.heard[n - 2].fate == Lost
  }

  lemma TwiceLogged(x: World, t: Trip, n: nat, r: Reception)
    requires Fair(x.mac, t) && t.heard == Some(r) && HeardLast(x, n, r, Lost) && x.session == n
    ensures AcceptedTwice(Completed(x, t))
  {}

  /** Whatever the device has been through: when it hears a downlink and the
      power fails before the next persist, its receiver is the one it was before
      (so `GenuineSame`: the same frame is accepted, at the same counter), and it
      is free to listen. */
  lemma ForgottenByPowerCut(d: Device, step: (World, World) -> bool, w: World, t: Trip) returns (cut: World)
    requires d.Ok() && Covers(d, step) && Basic(w) && Fair(w.mac, t) && t.heard.Some?
    ensures step(Completed(w, t), cut) && Basic(cut)
    ensures HeardLast(cut, w.session, t.heard.value, Lost) && cut.session == w.session
    ensures SameReceiver(t.m.session, cut.mac.session) && cut.mac.session.joined
    ensures cut.mac.uplinks == 0 && cut.mac.net.pending == []
  {
    AfterHearing(w, t);
    SavedWellNow(t.m);
    AfterPowerCut(d, Completed(w, t), t.m, w.session, t.heard.value);
    cut := PowerCut(d, Completed(w, t));
  }

  /** A join the network grants, from power-on. */
  lemma JoinFirst(d: Device, g: Grant) returns (w: World)
    requires d.Ok() && g.WellFormed()
    ensures StepBy(d, Boot(d), w) && Basic(w) && w.mac.session.joined && w.mac.session.fcntDown == 0
    ensures w.mac.uplinks == 0 && w.mac.net.pending == []
  {
    BootGood(d);
    var c := JoinCall(0, true, Some(AcceptFrame(d, g)));
    var t := TripOf(d, Boot(d).mac, c);
    AgreementAfter(d, t.m, g);
    TripFair(d, Boot(d).mac, c);
    TripSteps(d, Boot(d), c, t);
    w := Completed(Boot(d), t);
  }

  /** The network's next frame is one the device accepts. */
  lemma NextFrameGenuine(aes: Aes, m: Mac, msg: Message)
    requires aes.Lawful() && m.Ok() && msg.WellFormed() && m.session.fcntDown <= 0xFFFF_FFFF
    ensures Genuine(aes, m, DownFrame(aes, m.session, m.session.fcntDown, msg))
  {
    FrameDelivered(aes, m, m.session.fcntDown, msg, 0);
  }

  /** So, for every device, some run from power-on accepts one frame twice: a
      join, an uplink that hears it, the power cut, and another uplink. */
  lemma FrameAcceptedTwice(d: Device, g: Grant) returns (w: World)
    requires d.Ok() && g.WellFormed()
    ensures Reachable(d, w) && AcceptedTwice(w)
  {
    var joined := JoinFirst(d, g);
    var msg := Message(false, 0, [], None);
    var data := DownFrame(d.aes, joined.mac.session, 0, msg);
    NextFrameGenuine(d.aes, joined.mac, msg);
    var c := Listen(d, joined.mac, data);
    var t := TripOf(d, joined.mac, c);
    GenuineSame(d.aes, joined.mac, t.m, data);
    TripFair(d, joined.mac, c);
    TripSteps(d, joined, c, t);
    var cut := ForgottenByPowerCut(d, Steps(d), joined, t);
    GenuineSame(d.aes, t.m, cut.mac, data);
    var again := Listen(d, cut.mac, data);
    var u := TripOf(d, cut.mac, again);
    GenuineSame(d.aes, cut.mac, u.m, data);
    TripFair(d, cut.mac, again);
    TripSteps(d, cut, again, u);
    TwiceLogged(cut, u, joined.session, t.heard.value);
    w := Completed(cut, u);
    FourSteps(Steps(d), Boot(d), joined, Completed(joined, t), cut, w);
  }
}
