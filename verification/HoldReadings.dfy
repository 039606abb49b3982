/** When the irrigation must be held, said from the settings and the readings
    alone, and that the engine's history of cycles says the same. */
module HoldReadings {
  import opened IrrigationHold
  import opened HoldHistory

  /** One sampling cycle: its reading, the probes suspended, the clock. */
  datatype Seen = Seen(reading: map<Column, Sample>, suspended: set<string>, now: int)

  predicate GivesUp(s: Settings, x: Seen) { Blind(s, x.reading, x.suspended) && s.onFault == ReleaseOnFault }

  predicate Asks(s: Settings, x: Seen) {
    !GivesUp(s, x) && (Over(s, x.reading, x.suspended) || Blind(s, x.reading, x.suspended))
  }

  predicate Quiet(s: Settings, x: Seen) { !Over(s, x.reading, x.suspended) && !Blind(s, x.reading, x.suspended) }

  /** The `k` first cycles end in `tripSamples` ones, and one at least, that
      ask for the hold. */
  ghost predicate Tripped(s: Settings, seen: seq<Seen>, k: nat) {
    && 1 <= k <= |seen| && s.tripSamples <= k
    && Asks(s, seen[k - 1])
    && forall i :: 0 <= i < k && k - s.tripSamples <= i ==> Asks(s, seen[i])
  }

  /** Cycle `j` ends a run of quiet cycles that began at `i`, after the trip,
      and has gone on for the release minutes. */
  ghost predicate QuietLongEnough(s: Settings, seen: seq<Seen>, i: nat, j: nat) {
    && i <= j < |seen|
    && (forall m :: i <= m <= j ==> Quiet(s, seen[m]))
    && (i == 0 || !Quiet(s, seen[i - 1]))
    && seen[j].now - seen[i].now >= 60 * s.releaseMin && seen[j].now >= seen[i].now
  }

  /** Cycle `j` lets go of a hold that tripped at `k`. */
  ghost predicate Ends(s: Settings, seen: seq<Seen>, k: nat, j: nat)
    requires j < |seen|
  {
    GivesUp(s, seen[j]) || exists i: nat :: k <= i && QuietLongEnough(s, seen, i, j)
  }

  /** A trip was completed, and nothing since has let go. */
  ghost predicate Held(s: Settings, seen: seq<Seen>) {
    exists k: nat :: Tripped(s, seen, k) && forall j :: k <= j < |seen| ==> !Ends(s, seen, k, j)
  }

  /** What the engine makes of the cycles. */
  function CyclesOf(cfg: HoldConfig, seen: seq<Seen>): (h: History)
    ensures |h| == |seen|
    ensures forall i :: 0 <= i < |h| ==> h[i] == CycleOf(cfg, seen[i].reading, seen[i].suspended, seen[i].now)
  {
    seq(|seen|, i requires 0 <= i < |seen| => CycleOf(cfg, seen[i].reading, seen[i].suspended, seen[i].now))
  }

  lemma EachCycle(s: Settings, x: Seen)
    ensures var cfg := FromSettings(s); var c := CycleOf(cfg, x.reading, x.suspended, x.now);
      && (GivesUp(s, x) <==> Releasing(cfg, c))
      && (Asks(s, x) <==> Bad(cfg, c))
      && (Quiet(s, x) <==> Clear(c))
      && c.now == x.now
  {
    CycleMeans(s, x.reading, x.suspended, x.now);
  }

  lemma AllCycles(s: Settings, seen: seq<Seen>)
    ensures var cfg := FromSettings(s); var h := CyclesOf(cfg, seen);
      forall i :: 0 <= i < |h| ==>
        && (GivesUp(s, seen[i]) <==> Releasing(cfg, h[i]))
        && (Asks(s, seen[i]) <==> Bad(cfg, h[i]))
        && (Quiet(s, seen[i]) <==> Clear(h[i]))
        && h[i].now == seen[i].now
  {
    forall i | 0 <= i < |seen| {
      EachCycle(s, seen[i]);
    }
  }

  lemma SameEnds(s: Settings, seen: seq<Seen>, k: nat, j: nat)
    requires k <= j < |seen|
    ensures Ends(s, seen, k, j) <==> LetsGo(FromSettings(s), CyclesOf(FromSettings(s), seen), k, j)
  {
    var cfg := FromSettings(s);
    var h := CyclesOf(cfg, seen);
    AllCycles(s, seen);
    forall i: nat | i <= j
      ensures QuietLongEnough(s, seen, i, j) <==> ClearRun(h, i, j) && h[j].now - h[i].now >= cfg.release
    {}
  }

  /** The settings' own account of a run is the engine's. */
  lemma HeldIffHistoryHolds(s: Settings, seen: seq<Seen>)
    ensures Held(s, seen) <==> HistoryHolds(FromSettings(s), CyclesOf(FromSettings(s), seen))
  {
    var cfg := FromSettings(s);
    var h := CyclesOf(cfg, seen);
    forall k: nat ensures Tripped(s, seen, k) <==> TrippedAt(cfg, h, k) {
      AllCycles(s, seen);
    }
    forall k: nat, j | k <= j < |h| ensures Ends(s, seen, k, j) <==> LetsGo(cfg, h, k, j) {
      SameEnds(s, seen, k, j);
    }
    forall k: nat ensures StillHeld(cfg, h, k) <==> Tripped(s, seen, k) && forall j :: k <= j < |seen| ==> !Ends(s, seen, k, j) {}
  }

  /** So the engine holds exactly when the settings and readings say so. */
  lemma HoldingIffHeld(s: Settings, seen: seq<Seen>)
    ensures var cfg := FromSettings(s);
      After(cfg, CyclesOf(cfg, seen)).holding <==> Held(s, seen)
  {
    HoldingIffHistory(FromSettings(s), CyclesOf(FromSettings(s), seen));
    HeldIffHistoryHolds(s, seen);
  }
}
