/** JoinAccepts over runs with crashes: which of them the device would accept
    again, exactly. */
module LoRaJoins {
  import opened Wrappers
  import opened BitMath
  import opened LoRaCrypto
  import opened LoRaCommands
  import opened LoRaMac
  import opened LoRaLink
  import opened LoRaRuns
  import opened Paths

  // ---- The log of accepted JoinAccepts ------------------------------------------------

  /** An accepted AppNonce, and whether its acceptance has reached the disk. */
  datatype Accept = Accept(nonce: int, fate: Fate)

  /** What was fresh meets its fate. */
  function Settle(log: seq<Accept>, fate: Fate): (r: seq<Accept>)
    ensures |r| == |log|
  {
    seq(|log|, i requires 0 <= i < |log| => if log[i].fate == Fresh then log[i].(fate := fate) else log[i])
  }

  /** The AppNonces of the acceptances no restart has undone, oldest first. */
  function Standing(log: seq<Accept>): seq<int>
    decreases |log|
  {
    if log == [] then []
    else Standing(log[..|log| - 1]) + if log[|log| - 1].fate == Lost then [] else [log[|log| - 1].nonce]
  }

  function LastOnes(ns: seq<int>): seq<int> { if |ns| <= NONCES_KEPT then ns else ns[|ns| - NONCES_KEPT..] }

  lemma {:induction false} KeptStands(log: seq<Accept>)
    ensures Standing(Settle(log, Kept)) == Standing(log)
    decreases |log|
  {
    if log != [] {
      var n := |log| - 1;
      assert Settle(log, Kept)[..n] == Settle(log[..n], Kept);
      KeptStands(log[..n]);
    }
  }

  lemma SettleTwice(log: seq<Accept>, fate: Fate)
    requires fate != Fresh
    ensures Settle(Settle(log, fate), Lost) == Settle(log, fate)
  {}

  lemma StandingOn(log: seq<Accept>, a: Accept)
    ensures Standing(log + [a]) == Standing(log) + if a.fate == Lost then [] else [a.nonce]
    ensures Settle(log + [a], Lost) == Settle(log, Lost) + [if a.fate == Fresh then a.(fate := Lost) else a]
  {
    assert (log + [a])[..|log|] == log;
  }

  /** The device's list is the tail of the standing ones. */
  lemma RememberedTail(all: seq<int>, n: int)
    requires RecentNonces(LastOnes(all)) && n !in LastOnes(all) && 0 <= n <= 0xFF_FFFF
    ensures LastOnes(all + [n]) == Remembered(LastOnes(all), n)
  {
    TailOn(all, n);
  }

  lemma TailOn(all: seq<int>, n: int)
    ensures LastOnes(all + [n]) == LastOnes(LastOnes(all) + [n])
  {
    var k := |all|;
    if k > NONCES_KEPT {
      var tail := all[k - NONCES_KEPT..] + [n];
      assert tail == (all + [n])[k - NONCES_KEPT..];
      assert tail[1..] == (all + [n])[k + 1 - NONCES_KEPT..];
    }
  }

  // ---- Runs ------------------------------------------------------------------------------

  datatype Tracked = Tracked(w: World, accepts: seq<Accept>)

  /** What a call does to the AppNonces: a join that succeeds remembers one more,
      nothing else touches them. */
  ghost predicate NonceFair(m: Mac, t: Trip) {
    && RecentNonces(m.appNonces) && t.m.appNonces == m.appNonces
    && (!t.joins ==> t.done.appNonces == m.appNonces)
    && (t.joins ==> exists n: int :: Adds(m.appNonces, n, t.done.appNonces))
  }

  predicate Adds(ns: seq<int>, n: int, r: seq<int>) {
    RecentNonces(ns) && n !in ns && 0 <= n <= 0xFF_FFFF && r == Remembered(ns, n)
  }

  lemma JoinNonces(d: Device, m: Mac, data: Bytes)
    requires d.Ok() && m.Ok()
    ensures var (r, ok) := JoinAccepted(d, m, data);
      if ok then exists n: int :: Adds(m.appNonces, n, r.appNonces) else r.appNonces == m.appNonces
  {
    var (r, ok) := JoinAccepted(d, m, data);
    if ok {
      var body := AcceptBody(d, data).0;
      var n := FromLe24(body[0], body[1], body[2]);
      assert Adds(m.appNonces, n, r.appNonces);
    }
  }

  lemma UplinkNonces(d: Device, m: Mac, payload: Bytes, port: Byte, confirmed: bool)
    requires d.Ok() && m.Ok()
    ensures UplinkStarted(d, m, payload, port, confirmed).0.appNonces == m.appNonces
  {}

  lemma DownlinkNonces(aes: Aes, m: Mac, data: Bytes, snr: int)
    requires aes.Lawful() && m.Ok()
    ensures Downlink(aes, m, data, snr).0.appNonces == m.appNonces
  {}

  lemma TripNonces(d: Device, m: Mac, c: Call)
    requires d.Ok() && m.Ok() && c.Ok()
    ensures NonceFair(m, TripOf(d, m, c))
  {
    var started := Started(d, m, c).0;
    if c.UplinkCall? { UplinkNonces(d, m, c.payload, c.port, c.confirmed); }
    assert started.appNonces == m.appNonces;
    if Receives(d, m, c) && c.JoinCall? {
      JoinNonces(d, started, c.received.value);
    } else if Receives(d, m, c) {
      DownlinkNonces(d.aes, started, c.received.value, c.snr);
    }
  }

  /** The log after a call, or a crash in it, of which `k` effects came out. */
  function AcceptsAfter(log: seq<Accept>, t: Trip, crashed: bool, k: nat): seq<Accept> {
    var seen := if k > 0 then Settle(log, Kept) else log;
    if crashed then Settle(seen, Lost)
    else if t.joins && t.done.appNonces != [] then seen + [Accept(t.done.appNonces[|t.done.appNonces| - 1], Fresh)]
    else seen
  }

  function TrackedMove(d: Device, s: Tracked, v: Move): Tracked
    requires d.Ok() && Basic(s.w) && Possible(d, s.w, v)
  {
    var t := TripOf(d, s.w.mac, v.call);
    TripFair(d, s.w.mac, v.call);
    Tracked(Moved(d, s.w, v), AcceptsAfter(s.accepts, t, v.Crash?, if v.Crash? then v.k else |t.effects|))
  }

  ghost predicate TrackedBy(d: Device, s: Tracked, r: Tracked)
    requires d.Ok()
  {
    Basic(s.w) && exists v :: Possible(d, s.w, v) && TrackedMove(d, s, v) == r
  }

  ghost function TrackedSteps(d: Device): (Tracked, Tracked) -> bool
    requires d.Ok()
  {
    (s, r) => TrackedBy(d, s, r)
  }

  /** Some run from power-on, with any calls and crashes, leads here. */
  ghost predicate TrackedReachable(d: Device, s: Tracked)
    requires d.Ok()
  {
    Leads(TrackedSteps(d), Tracked(Boot(d), []), s)
  }

  // ---- What is remembered --------------------------------------------------------------------

  function DiskNonces(disk: Option<Image>): seq<int> { if disk.Some? then disk.value.saved.appNonces else [] }

  /** The list in memory is the tail of the standing acceptances, and the one on
      disk of those a restart would leave standing. */
  predicate Recalls(log: seq<Accept>, memory: seq<int>, disk: seq<int>) {
    memory == LastOnes(Standing(log)) && disk == LastOnes(Standing(Settle(log, Lost)))
  }

  ghost predicate Recalling(s: Tracked) { Basic(s.w) && Recalls(s.accepts, s.w.mac.appNonces, DiskNonces(s.w.disk)) }

  lemma RecallPersisted(log: seq<Accept>, memory: seq<int>, disk: seq<int>)
    requires Recalls(log, memory, disk)
    ensures Recalls(Settle(log, Kept), memory, memory)
  {
    KeptStands(log);
    SettleTwice(log, Kept);
  }

  lemma RecallRestarted(log: seq<Accept>, memory: seq<int>, disk: seq<int>)
    requires Recalls(log, memory, disk)
    ensures Recalls(Settle(log, Lost), disk, disk)
  {
    SettleTwice(log, Lost);
  }

  lemma RecallAccepted(log: seq<Accept>, memory: seq<int>, disk: seq<int>, n: int, next: seq<int>)
    requires Recalls(log, memory, disk) && Adds(memory, n, next)
    ensures next != [] && next[|next| - 1] == n && Recalls(log + [Accept(n, Fresh)], next, disk)
  {
    StandingOn(log, Accept(n, Fresh));
    StandingOn(Settle(log, Lost), Accept(n, Lost));
    RememberedTail(Standing(log), n);
  }

  lemma RestartNonces(d: Device, disk: Option<Image>)
    requires disk.Some? ==> SavedWell(disk.value)
    ensures Restarted(d, disk).appNonces == DiskNonces(disk)
  {
    if disk.Some? {
      var m: Mac :| m.Ok() && ImageOf(m) == disk.value;
      RestartedOk(d, m);
    }
  }

  /** While effects come out. */
  lemma RecallPerformed(w: World, t: Trip, k: nat, log: seq<Accept>)
    requires Fair(w.mac, t) && NonceFair(w.mac, t) && k <= |t.effects| && Recalls(log, w.mac.appNonces, DiskNonces(w.disk))
    ensures var disk := Performed(Numbered(w, t), t, k).disk;
      Recalls(if k > 0 then Settle(log, Kept) else log, w.mac.appNonces, DiskNonces(disk))
  {
    DiskPerformed(Numbered(w, t), t, k);
    if k > 0 { RecallPersisted(log, w.mac.appNonces, DiskNonces(w.disk)); }
  }

  lemma RecallCompleted(w: World, t: Trip, log: seq<Accept>)
    requires Fair(w.mac, t) && NonceFair(w.mac, t) && Recalls(log, w.mac.appNonces, DiskNonces(w.disk))
    ensures var r := Completed(w, t);
      Recalls(AcceptsAfter(log, t, false, |t.effects|), r.mac.appNonces, DiskNonces(r.disk))
  {
    var k := |t.effects|;
    var seen := if k > 0 then Settle(log, Kept) else log;
    RecallPerformed(w, t, k, log);
    if t.joins {
      var n :| Adds(w.mac.appNonces, n, t.done.appNonces);
      RecallAccepted(seen, w.mac.appNonces, DiskNonces(Performed(Numbered(w, t), t, k).disk), n, t.done.appNonces);
    }
  }

  lemma RecallCrashed(d: Device, w: World, t: Trip, k: nat, log: seq<Accept>)
    requires Basic(w) && Fair(w.mac, t) && NonceFair(w.mac, t) && k <= |t.effects|
    requires Recalls(log, w.mac.appNonces, DiskNonces(w.disk))
    ensures var r := Crashed(d, w, t, k);
      Recalls(AcceptsAfter(log, t, true, k), r.mac.appNonces, DiskNonces(r.disk))
  {
    var disk := Performed(Numbered(w, t), t, k).disk;
    RecallPerformed(w, t, k, log);
    DiskStays(w, t, k);
    RestartNonces(d, disk);
    RecallRestarted(if k > 0 then Settle(log, Kept) else log, w.mac.appNonces, DiskNonces(disk));
  }

  lemma MoveRecalls(d: Device, s: Tracked, v: Move)
    requires d.Ok() && Recalling(s) && Possible(d, s.w, v)
    ensures Recalling(TrackedMove(d, s, v))
  {
    var t := TripOf(d, s.w.mac, v.call);
    TripFair(d, s.w.mac, v.call);
    TripNonces(d, s.w.mac, v.call);
    if v.Crash? {
      RecallCrashed(d, s.w, t, v.k, s.accepts);
    } else {
      RecallCompleted(s.w, t, s.accepts);
    }
  }

  lemma StepRecalls(d: Device, s: Tracked, r: Tracked)
    requires d.Ok() && Recalling(s) && TrackedBy(d, s, r)
    ensures Recalling(r)
  {
    var v :| Possible(d, s.w, v) && TrackedMove(d, s, v) == r;
    MoveRecalls(d, s, v);
  }

  lemma ReachableRecalls(d: Device, s: Tracked)
    requires d.Ok() && TrackedReachable(d, s)
    ensures Recalling(s)
  {
    var inv := (x: Tracked) => Recalling(x);
    FreshOk(d);
    assert inv(Tracked(Boot(d), []));
    forall x, y | inv(x) && TrackedSteps(d)(x, y) ensures inv(y) { StepRecalls(d, x, y); }
    LeadsKeeps(TrackedSteps(d), inv, Tracked(Boot(d), []), s);
  }

  // ---- Main results ------------------------------------------------------------------------------

  /** How many standing acceptances came after entry `j`. */
  function Since(log: seq<Accept>, j: nat): int
    requires j < |log|
  {
    |Standing(log)| - |Standing(log[..j + 1])|
  }

  /** Entry `j` is for this AppNonce, no restart has undone it, and at most seven
      that stand came after it. */
  predicate Holds(log: seq<Accept>, j: nat, n: int)
    requires j < |log|
  {
    log[j].nonce == n && log[j].fate != Lost && Since(log, j) < NONCES_KEPT
  }

  lemma {:induction false} PlaceOf(log: seq<Accept>, j: nat)
    requires j < |log| && log[j].fate != Lost
    ensures var p := |Standing(log[..j])|;
      p < |Standing(log)| && Standing(log)[p] == log[j].nonce && |Standing(log[..j + 1])| == p + 1
    decreases |log|
  {
    var n := |log| - 1;
    assert log[..j + 1][..j] == log[..j];
    if j < n {
      PlaceOf(log[..n], j);
      assert log[..n][..j] == log[..j];
    }
  }

  lemma {:induction false} EntryOf(log: seq<Accept>, p: nat) returns (j: nat)
    requires p < |Standing(log)|
    ensures j < |log| && log[j].fate != Lost && |Standing(log[..j])| == p && log[j].nonce == Standing(log)[p]
    decreases |log|
  {
    var n := |log| - 1;
    if p < |Standing(log[..n])| {
      j := EntryOf(log[..n], p);
      assert log[..n][..j] == log[..j];
    } else {
      j := n;
    }
  }

  lemma RecentExactly(log: seq<Accept>, n: int)
    ensures n in LastOnes(Standing(log)) <==> exists j :: 0 <= j < |log| && Holds(log, j, n)
  {
    var ns := Standing(log);
    if n in LastOnes(ns) {
      var p := InTail(ns, n);
      var j := EntryOf(log, p);
      PlaceOf(log, j);
      assert Holds(log, j, n);
    }
    if j :| 0 <= j < |log| && Holds(log, j, n) {
      PlaceOf(log, j);
      OfTail(ns, |Standing(log[..j])|);
    }
  }

  lemma InTail(ns: seq<int>, n: int) returns (p: nat)
    requires n in LastOnes(ns)
    ensures p < |ns| && ns[p] == n && |ns| - (p + 1) < NONCES_KEPT
  {
    var tail := LastOnes(ns);
    var q :| 0 <= q < |tail| && tail[q] == n;
    p := q + |ns| - |tail|;
  }

  lemma OfTail(ns: seq<int>, p: nat)
    requires p < |ns| && |ns| - (p + 1) < NONCES_KEPT
    ensures ns[p] in LastOnes(ns)
  {
    var tail := LastOnes(ns);
    assert tail[p - (|ns| - |tail|)] == ns[p];
  }

  /** Exactly which JoinAccepts are refused, in every state any run reaches: those
      whose AppNonce was accepted before with no restart between that and the
      next persist, and with at most seven accepted since that stand. */
  lemma JoinRefusedExactly(d: Device, s: Tracked, random: nat, g: Grant)
    requires d.Ok() && TrackedReachable(d, s) && s.w.mac.Ok() && random <= 0xFFFF && g.WellFormed()
    ensures JoinAccepted(d, JoinStarted(d, s.w.mac, random).0, AcceptFrame(d, g)).1
       <==> !exists j :: 0 <= j < |s.accepts| && Holds(s.accepts, j, g.Number())
  {
    ReachableRecalls(d, s);
    RecentExactly(s.accepts, g.Number());
    JoinAgreement(d, s.w.mac, random, g);
  }

  /** The log holds one AppNonce accepted twice, the first undone by a restart. */
  predicate JoinedTwice(log: seq<Accept>, n: int) {
    |log| >= 2 && log[|log| - 2] == Accept(n, Lost) && log[|log| - 1] == Accept(n, Fresh)
  }

  ghost predicate CoversTracked(d: Device, step: (Tracked, Tracked) -> bool)
    requires d.Ok()
  {
    forall a: Tracked, b: Tracked {:trigger TrackedBy(d, a, b)} :: TrackedBy(d, a, b) ==> step(a, b)
  }

  /** A join the network grants with an AppNonce not in the list. */
  lemma GrantTrip(d: Device, m: Mac, g: Grant) returns (c: Call, t: Trip)
    requires d.Ok() && m.Ok() && g.WellFormed() && g.Number() !in m.appNonces
    ensures c.Ok() && t == TripOf(d, m, c) && Fair(m, t) && t.joins && |t.effects| == 2
    ensures t.m.appNonces == m.appNonces && Adds(m.appNonces, g.Number(), t.done.appNonces)
  {
    c := JoinCall(0, true, Some(AcceptFrame(d, g)));
    t := TripOf(d, m, c);
    TripFair(d, m, c);
    AgreementAfter(d, t.m, g);
    BodyFields(g);
  }

  lemma Granted(d: Device, step: (Tracked, Tracked) -> bool, s: Tracked, g: Grant) returns (r: Tracked)
    requires d.Ok() && CoversTracked(d, step) && Basic(s.w) && g.WellFormed() && g.Number() !in s.w.mac.appNonces
    ensures step(s, r) && Basic(r.w) && DiskNonces(r.w.disk) == s.w.mac.appNonces
    ensures r.accepts == Settle(s.accepts, Kept) + [Accept(g.Number(), Fresh)]
  {
    var c, t := GrantTrip(d, s.w.mac, g);
    r := RunStep(d, step, s, c, t);
    GrantLogged(s.w, t, s.accepts, g.Number());
  }

  lemma RunStep(d: Device, step: (Tracked, Tracked) -> bool, s: Tracked, c: Call, t: Trip) returns (r: Tracked)
    requires d.Ok() && CoversTracked(d, step) && Basic(s.w) && c.Ok() && t == TripOf(d, s.w.mac, c) && Fair(s.w.mac, t)
    ensures step(s, r) && Basic(r.w)
    ensures r == Tracked(Completed(s.w, t), AcceptsAfter(s.accepts, t, false, |t.effects|))
  {
    assert Possible(d, s.w, Run(c));
    r := TrackedMove(d, s, Run(c));
    assert TrackedBy(d, s, r);
  }

  lemma GrantLogged(w: World, t: Trip, log: seq<Accept>, n: int)
    requires Fair(w.mac, t) && t.joins && |t.effects| == 2 && t.m.appNonces == w.mac.appNonces
    requires Adds(w.mac.appNonces, n, t.done.appNonces)
    ensures DiskNonces(Completed(w, t).disk) == w.mac.appNonces
    ensures AcceptsAfter(log, t, false, 2) == Settle(log, Kept) + [Accept(n, Fresh)]
  {
    DiskPerformed(Numbered(w, t), t, 2);
  }

  /** Power fails before the next persist. */
  lemma CutBefore(d: Device, step: (Tracked, Tracked) -> bool, s: Tracked) returns (r: Tracked)
    requires d.Ok() && CoversTracked(d, step) && Basic(s.w)
    ensures step(s, r) && Basic(r.w) && r.accepts == Settle(s.accepts, Lost)
    ensures r.w.mac.appNonces == DiskNonces(s.w.disk)
  {
    TripFair(d, s.w.mac, PersistCall);
    assert Possible(d, s.w, Crash(PersistCall, 0));
    r := TrackedMove(d, s, Crash(PersistCall, 0));
    assert TrackedBy(d, s, r);
    RestartNonces(d, s.w.disk);
  }

  /** So, for every device, some run from power-on accepts one JoinAccept twice:
      the power goes before the session it opened is saved. */
  lemma JoinAcceptedTwice(d: Device, g: Grant) returns (s: Tracked)
    requires d.Ok() && g.WellFormed()
    ensures TrackedReachable(d, s) && JoinedTwice(s.accepts, g.Number())
  {
    BootGood(d);
    s := TwiceFrom(d, TrackedSteps(d), Tracked(Boot(d), []), g);
  }

  lemma TwiceFrom(d: Device, step: (Tracked, Tracked) -> bool, boot: Tracked, g: Grant) returns (s: Tracked)
    requires d.Ok() && CoversTracked(d, step) && g.WellFormed()
    requires Basic(boot.w) && boot.w.mac.appNonces == [] && boot.accepts == []
    ensures Leads(step, boot, s) && JoinedTwice(s.accepts, g.Number())
  {
    var one := Granted(d, step, boot, g);
    var cut := CutBefore(d, step, one);
    s := Granted(d, step, cut, g);
    ThreeSteps(step, boot, one, cut, s);
  }
}
