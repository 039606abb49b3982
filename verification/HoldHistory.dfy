/** What the hold's online state says about everything it has seen. */
module HoldHistory {
  import opened IrrigationHold

  type History = seq<Cycle>

  predicate Releasing(cfg: HoldConfig, c: Cycle) { c.unknown && cfg.onFault == ReleaseOnFault }

  predicate Bad(cfg: HoldConfig, c: Cycle) { !Releasing(cfg, c) && (c.tripping || c.unknown) }

  predicate Clear(c: Cycle) { !c.tripping && !c.unknown }

  /** The logical state after a history, from a fresh start. */
  function After(cfg: HoldConfig, h: History): Logic
    decreases |h|
  {
    if h == [] then RELEASED else Judge(cfg, After(cfg, h[..|h| - 1]), h[|h| - 1])
  }

  // ---- The history says -----------------------------------------------------

  /** The first `k` cycles end in a full run of bad ones. */
  ghost predicate TrippedAt(cfg: HoldConfig, h: History, k: nat) {
    && 1 <= k <= |h| && cfg.tripSamples <= k
    && Bad(cfg, h[k - 1])
    && forall i :: 0 <= i < k && k - cfg.tripSamples <= i ==> Bad(cfg, h[i])
  }

  /** Cycles `i` to `j` are all clear, and the run of clear cycles began at
      `i`. */
  ghost predicate ClearRun(h: History, i: nat, j: nat) {
    && i <= j < |h|
    && (forall m :: i <= m <= j ==> Clear(h[m]))
    && (i == 0 || !Clear(h[i - 1]))
  }

  /** Cycle `j` is one that lets go: a releasing fault, or the end of a clear
      run that has lasted the release period and began after the trip. */
  ghost predicate LetsGo(cfg: HoldConfig, h: History, k: nat, j: nat)
    requires j < |h|
  {
    || Releasing(cfg, h[j])
    || exists i: nat :: k <= i <= j && ClearRun(h, i, j) && h[j].now - h[i].now >= cfg.release
  }

  ghost predicate StillHeld(cfg: HoldConfig, h: History, k: nat) {
    TrippedAt(cfg, h, k) && forall j :: k <= j < |h| ==> !LetsGo(cfg, h, k, j)
  }

  /** Some earlier point completed a trip and nothing has let go since. */
  ghost predicate HistoryHolds(cfg: HoldConfig, h: History) {
    exists k: nat :: StillHeld(cfg, h, k)
  }

  // ---- What each field remembers ----------------------------------------------

  /** How many bad cycles the history ends in. */
  function BadTail(cfg: HoldConfig, h: History): (n: nat)
    ensures n <= |h|
    ensures forall i :: |h| - n <= i < |h| ==> Bad(cfg, h[i])
    ensures n < |h| ==> !Bad(cfg, h[|h| - n - 1])
    decreases |h|
  {
    if h == [] || !Bad(cfg, h[|h| - 1]) then 0 else 1 + BadTail(cfg, h[..|h| - 1])
  }

  /** Where the clear cycles the history ends in begin; its length if none. */
  function ClearStart(h: History): (i: nat)
    ensures i <= |h|
    ensures forall m :: i <= m < |h| ==> Clear(h[m])
    ensures i == 0 || !Clear(h[i - 1])
    decreases |h|
  {
    if h == [] || !Clear(h[|h| - 1]) then |h| else ClearStart(h[..|h| - 1])
  }

  ghost predicate Remembers(cfg: HoldConfig, h: History, l: Logic) {
    && l.tripCount == BadTail(cfg, h)
    && (!l.holding || ClearStart(h) == |h| ==> l.clearSince == Never)
    && (l.holding && ClearStart(h) < |h| ==> l.clearSince == At(h[ClearStart(h)].now))
  }

  lemma {:induction false} FieldsRemember(cfg: HoldConfig, h: History)
    requires cfg.tripSamples >= 1
    ensures Remembers(cfg, h, After(cfg, h))
    decreases |h|
  {
    if h != [] {
      FieldsRemember(cfg, h[..|h| - 1]);
    }
  }

  // ---- The refinement -----------------------------------------------------------

  /** Clear runs are where `ClearStart` says. */
  lemma ClearRunUnique(h: History, i: nat)
    requires h != [] && ClearRun(h, i, |h| - 1)
    ensures i == ClearStart(h)
  {
    var s := ClearStart(h);
    assert s > 0 ==> !Clear(h[s - 1]);
  }

  /** Looking at a longer history changes nothing about its earlier part. */
  lemma PrefixSame(cfg: HoldConfig, h: History, c: Cycle, k: nat)
    ensures k <= |h| ==> (TrippedAt(cfg, h + [c], k) <==> TrippedAt(cfg, h, k))
    ensures forall j :: 0 <= j < |h| ==> (LetsGo(cfg, h + [c], k, j) <==> LetsGo(cfg, h, k, j))
  {
    var g := h + [c];
    assert forall m :: 0 <= m < |h| ==> g[m] == h[m];
    forall j | 0 <= j < |h| ensures LetsGo(cfg, g, k, j) <==> LetsGo(cfg, h, k, j) {
      forall i: nat | i <= j ensures ClearRun(g, i, j) <==> ClearRun(h, i, j) {
        assert i > 0 ==> g[i - 1] == h[i - 1];
      }
    }
  }

  lemma HoldsAfterFault(cfg: HoldConfig, h: History, c: Cycle)
    requires Releasing(cfg, c)
    ensures !HistoryHolds(cfg, h + [c])
  {
    var g := h + [c];
    forall k: nat ensures !StillHeld(cfg, g, k) {
      assert k <= |h| ==> LetsGo(cfg, g, k, |h|);
    }
  }

  lemma HoldsAfterBad(cfg: HoldConfig, h: History, c: Cycle)
    requires cfg.tripSamples >= 1 && Bad(cfg, c)
    ensures HistoryHolds(cfg, h + [c]) <==> HistoryHolds(cfg, h) || BadTail(cfg, h) + 1 >= cfg.tripSamples
  {
    var g := h + [c];
    var n := BadTail(cfg, h);
    if n + 1 >= cfg.tripSamples {
      assert TrippedAt(cfg, g, |g|);
      assert StillHeld(cfg, g, |g|);
    }
    forall k: nat | k <= |h| ensures StillHeld(cfg, g, k) <==> StillHeld(cfg, h, k) {
      PrefixSame(cfg, h, c, k);
      assert !LetsGo(cfg, g, k, |h|);
    }
    assert n < |h| ==> !Bad(cfg, g[|h| - n - 1]);
    assert n + 1 < cfg.tripSamples ==> !TrippedAt(cfg, g, |g|);
  }

  lemma HoldsAfterClear(cfg: HoldConfig, h: History, c: Cycle)
    requires cfg.tripSamples >= 1 && Clear(c)
    ensures var start := ClearStart(h + [c]);
      HistoryHolds(cfg, h + [c]) <==> HistoryHolds(cfg, h) && c.now - (h + [c])[start].now < cfg.release
  {
    var g := h + [c];
    var start := ClearStart(g);
    assert g[..|g| - 1] == h;
    forall k: nat | k <= |h| && TrippedAt(cfg, h, k)
      ensures LetsGo(cfg, g, k, |h|) <==> c.now - g[start].now >= cfg.release
    {
      assert !Clear(g[k - 1]);
      assert k <= start;
      assert ClearRun(g, start, |h|);
      if LetsGo(cfg, g, k, |h|) {
        var i: nat :| k <= i <= |h| && ClearRun(g, i, |h|) && g[|h|].now - g[i].now >= cfg.release;
        ClearRunUnique(g, i);
      }
    }
    forall k: nat ensures StillHeld(cfg, g, k) <==> StillHeld(cfg, h, k) && c.now - g[start].now < cfg.release {
      PrefixSame(cfg, h, c, k);
    }
  }

  /** The engine holds exactly when its whole history says so, in both fault
      modes and for any clock. */
  lemma {:induction false} HoldingIffHistory(cfg: HoldConfig, h: History)
    requires cfg.tripSamples >= 1
    ensures After(cfg, h).holding <==> HistoryHolds(cfg, h)
    decreases |h|
  {
    if h != [] {
      var g, c := h[..|h| - 1], h[|h| - 1];
      assert h == g + [c];
      HoldingIffHistory(cfg, g);
      FieldsRemember(cfg, g);
      FieldsRemember(cfg, h);
      if Releasing(cfg, c) {
        HoldsAfterFault(cfg, g, c);
      } else if Bad(cfg, c) {
        HoldsAfterBad(cfg, g, c);
      } else {
        HoldsAfterClear(cfg, g, c);
      }
    }
  }
}
