/** The analog pH calibration session: start, stable points, finish. */
module PhSession {
  import opened Wrappers

  const READS := 5
  const MAX_SPREAD := 0.02
  const MIN_GAP := 0.001

  /** A buffer in hundredths of a pH. */
  type Buffer = int
  const PH4: Buffer := 400
  const PH7: Buffer := 700

  /** One command of the session. Readings are None when the converter fails or
      gives no finite number; `accepts` says whether the probe takes the finish. */
  datatype Step =
    | Start
    | Point(buffer: Buffer, readings: seq<Option<real>>)
    | Finish(accepts: bool)

  datatype Session = Session(volts: map<Buffer, real>, started: bool)

  const FRESH := Session(map[], false)

  predicate Readable(readings: seq<Option<real>>) {
    |readings| == READS && forall i :: 0 <= i < READS ==> readings[i].Some?
  }

  function Values(readings: seq<Option<real>>): (v: seq<real>)
    requires Readable(readings)
    ensures |v| == READS
  {
    seq(READS, i requires 0 <= i < READS => readings[i].value)
  }

  function Least(v: seq<real>): (m: real)
    requires v != []
    ensures m in v && forall x :: x in v ==> m <= x
    decreases |v|
  {
    if |v| == 1 then v[0]
    else
      var m := Least(v[1..]);
      assert v == [v[0]] + v[1..];
      if v[0] <= m then v[0] else m
  }

  function Greatest(v: seq<real>): (m: real)
    requires v != []
    ensures m in v && forall x :: x in v ==> x <= m
    decreases |v|
  {
    if |v| == 1 then v[0]
    else
      var m := Greatest(v[1..]);
      assert v == [v[0]] + v[1..];
      if v[0] >= m then v[0] else m
  }

  predicate Ascending(v: seq<real>) { forall i, j :: 0 <= i < j < |v| ==> v[i] <= v[j] }

  /** Insertion into an ascending list. */
  function Inserted(x: real, v: seq<real>): (r: seq<real>)
    ensures |r| == |v| + 1 && multiset(r) == multiset(v) + multiset{x}
    decreases |v|
  {
    if v == [] || x <= v[0] then [x] + v
    else
      assert v == [v[0]] + v[1..];
      [v[0]] + Inserted(x, v[1..])
  }

  lemma {:induction false} InsertedAscends(x: real, v: seq<real>)
    requires Ascending(v)
    ensures Ascending(Inserted(x, v))
    ensures forall i :: 0 <= i < |Inserted(x, v)| ==> Inserted(x, v)[i] == x || (v != [] && Inserted(x, v)[i] >= v[0])
    decreases |v|
  {
    if v != [] && x > v[0] {
      InsertedAscends(x, v[1..]);
      assert v[1..] != [] ==> v[1..][0] >= v[0];
    }
  }

  function Sorted(v: seq<real>): (r: seq<real>)
    ensures |r| == |v| && multiset(r) == multiset(v)
    decreases |v|
  {
    if v == [] then []
    else
      assert v == [v[0]] + v[1..];
      Inserted(v[0], Sorted(v[1..]))
  }

  lemma {:induction false} SortedAscends(v: seq<real>)
    ensures Ascending(Sorted(v)) && multiset(Sorted(v)) == multiset(v)
    decreases |v|
  {
    if v != [] {
      SortedAscends(v[1..]);
      InsertedAscends(v[0], Sorted(v[1..]));
    }
  }

  function Median(v: seq<real>): (m: real)
    requires |v| == READS
    ensures m in v
  {
    assert Sorted(v)[READS / 2] in multiset(Sorted(v));
    Sorted(v)[READS / 2]
  }

  /** The stored voltage of a point: the median, when the readings agree. */
  function Stable(readings: seq<Option<real>>): Option<real> {
    if !Readable(readings) then None
    else
      var v := Values(readings);
      if Greatest(v) - Least(v) > MAX_SPREAD then None else Some(Median(v))
  }

  /** A stored voltage is one of the readings, and within the allowed spread of
      every other. */
  lemma StableIsClose(readings: seq<Option<real>>, i: nat)
    requires Stable(readings).Some? && i < |readings|
    ensures readings[i].Some? && Stable(readings) in readings
    ensures -MAX_SPREAD <= Stable(readings).value - readings[i].value <= MAX_SPREAD
  {
    var v := Values(readings);
    assert v[i] in v && Median(v) in v;
    var k :| 0 <= k < |v| && v[k] == Median(v);
    assert readings[k] == Some(Median(v));
  }

  /** How many of the values are at most `m`, and how many at least. */
  function AtMost(v: seq<real>, m: real): nat
    decreases |v|
  {
    if v == [] then 0 else (if v[0] <= m then 1 else 0) + AtMost(v[1..], m)
  }

  function AtLeast(v: seq<real>, m: real): nat
    decreases |v|
  {
    if v == [] then 0 else (if v[0] >= m then 1 else 0) + AtLeast(v[1..], m)
  }

  lemma {:induction false} InsertedCounts(x: real, v: seq<real>, m: real)
    ensures AtMost(Inserted(x, v), m) == AtMost(v, m) + if x <= m then 1 else 0
    ensures AtLeast(Inserted(x, v), m) == AtLeast(v, m) + if x >= m then 1 else 0
    decreases |v|
  {
    if v == [] || x <= v[0] {
      assert ([x] + v)[1..] == v;
    } else {
      InsertedCounts(x, v[1..], m);
      assert ([v[0]] + Inserted(x, v[1..]))[1..] == Inserted(x, v[1..]);
    }
  }

  lemma {:induction false} SortedCounts(v: seq<real>, m: real)
    ensures AtMost(Sorted(v), m) == AtMost(v, m) && AtLeast(Sorted(v), m) == AtLeast(v, m)
    decreases |v|
  {
    if v != [] {
      SortedCounts(v[1..], m);
      InsertedCounts(v[0], Sorted(v[1..]), m);
    }
  }

  /** In an ascending list, everything up to place `k` is at most what stands
      there, and everything from there on at least. */
  lemma {:induction false} AscendingCounts(v: seq<real>, k: nat)
    requires k < |v| && Ascending(v)
    ensures AtMost(v, v[k]) >= k + 1 && AtLeast(v, v[k]) >= |v| - k
    decreases |v|
  {
    if k > 0 {
      AscendingCounts(v[1..], k - 1);
    } else if |v| > 1 {
      AscendingCounts(v[1..], 0);
      AtLeastFalls(v[1..], v[1], v[0]);
    }
  }

  lemma {:induction false} AtLeastFalls(v: seq<real>, m: real, n: real)
    requires n <= m
    ensures AtLeast(v, n) >= AtLeast(v, m)
    decreases |v|
  {
    if v != [] { AtLeastFalls(v[1..], m, n); }
  }

  /** A point is stored exactly when there are five readings, none of them void,
      no two more than 0.02 V apart; and then what is stored is the one in the
      middle: three of the five are at most it and three at least. */
  lemma StableExactly(readings: seq<Option<real>>)
    ensures Stable(readings).Some? <==>
      && |readings| == 5 && (forall i :: 0 <= i < 5 ==> readings[i].Some?)
      && forall i, j :: 0 <= i < 5 && 0 <= j < 5 ==> readings[i].value - readings[j].value <= 0.02
    ensures Stable(readings).Some? ==>
      AtMost(Values(readings), Stable(readings).value) >= 3 && AtLeast(Values(readings), Stable(readings).value) >= 3
  {
    if Readable(readings) {
      var v := Values(readings);
      assert forall i :: 0 <= i < 5 ==> readings[i].value == v[i] && v[i] in v;
      var high :| 0 <= high < 5 && v[high] == Greatest(v);
      var low :| 0 <= low < 5 && v[low] == Least(v);
      assert readings[high].value - readings[low].value == Greatest(v) - Least(v);
      MedianMiddle(v);
    }
  }

  lemma MedianMiddle(v: seq<real>)
    requires |v| == READS
    ensures AtMost(v, Median(v)) >= 3 && AtLeast(v, Median(v)) >= 3
  {
    SortedAscends(v);
    AscendingCounts(Sorted(v), READS / 2);
    SortedCounts(v, Median(v));
  }

  predicate AcceptsPoint(s: Session, buffer: Buffer, readings: seq<Option<real>>) {
    (buffer == PH4 || buffer == PH7) && s.started && Stable(readings).Some?
  }

  /** Both points are there and apart. */
  predicate Applies(s: Session) {
    s.started && PH4 in s.volts && PH7 in s.volts &&
    (s.volts[PH7] - s.volts[PH4] >= MIN_GAP || s.volts[PH4] - s.volts[PH7] >= MIN_GAP)
  }

  function Stepped(s: Session, step: Step): Session {
    match step
    case Start => Session(map[], true)
    case Point(buffer, readings) =>
      if AcceptsPoint(s, buffer, readings) then s.(volts := s.volts[buffer := Stable(readings).value]) else s
    case Finish(accepts) => if Applies(s) && accepts then FRESH else s
  }

  function Ran(steps: seq<Step>): Session
    decreases |steps|
  {
    if steps == [] then FRESH else Stepped(Ran(steps[..|steps| - 1]), steps[|steps| - 1])
  }

  /** Step `i` begins the session or ends it. */
  predicate Clears(steps: seq<Step>, i: nat)
    requires i < |steps|
  {
    steps[i].Start? || (steps[i].Finish? && steps[i].accepts && Applies(Ran(steps[..i])))
  }

  /** Step `i` is the accepted point of this buffer that counts: none of the same
      buffer, and no clearing step, came after. */
  predicate Counts(steps: seq<Step>, i: nat, buffer: Buffer)
    requires i < |steps|
  {
    && steps[i].Point? && steps[i].buffer == buffer && AcceptsPoint(Ran(steps[..i]), buffer, steps[i].readings)
    && (forall j :: i < j < |steps| ==> !Clears(steps, j))
    && (forall j :: i < j < |steps| && steps[j].Point? && steps[j].buffer == buffer ==>
          !AcceptsPoint(Ran(steps[..j]), buffer, steps[j].readings))
  }

  lemma PrefixOf(steps: seq<Step>, i: nat, n: nat)
    requires i <= n <= |steps|
    ensures steps[..n][..i] == steps[..i]
  {}

  lemma CountsBefore(steps: seq<Step>, i: nat, buffer: Buffer)
    requires steps != [] && i < |steps| - 1
    ensures var n := |steps| - 1; var last := steps[n];
      Counts(steps, i, buffer) <==>
        && Counts(steps[..n], i, buffer) && !Clears(steps, n)
        && !(last.Point? && last.buffer == buffer && AcceptsPoint(Ran(steps[..n]), buffer, last.readings))
  {
    var n := |steps| - 1;
    var first := steps[..n];
    forall j: nat | j < n
      ensures first[j] == steps[j] && first[..j] == steps[..j] && Clears(first, j) == Clears(steps, j)
    {
      PrefixOf(steps, j, n);
    }
  }

  /** Every stored voltage is that of a step that counts. */
  lemma {:induction false} StoredCounts(steps: seq<Step>, buffer: Buffer) returns (i: nat)
    requires buffer in Ran(steps).volts
    ensures i < |steps| && Counts(steps, i, buffer)
    decreases |steps|
  {
    var n := |steps| - 1;
    if Counts(steps, n, buffer) {
      i := n;
    } else {
      i := StoredCounts(steps[..n], buffer);
      CountsBefore(steps, i, buffer);
    }
  }

  /** And the step that counts is stored. */
  lemma {:induction false} CountingIsStored(steps: seq<Step>, buffer: Buffer, i: nat)
    requires i < |steps| && Counts(steps, i, buffer)
    ensures buffer in Ran(steps).volts && Stable(steps[i].readings) == Some(Ran(steps).volts[buffer])
    decreases |steps|
  {
    var n := |steps| - 1;
    if i < n {
      CountsBefore(steps, i, buffer);
      CountingIsStored(steps[..n], buffer, i);
    }
  }

  /** So a finish applies, for each buffer, the last stable point since the
      calibration began: exactly the voltages of the steps that count. */
  lemma FinishUsesLastPoints(steps: seq<Step>, buffer: Buffer)
    ensures buffer in Ran(steps).volts <==> exists i: nat :: i < |steps| && Counts(steps, i, buffer)
    ensures forall i: nat :: i < |steps| && Counts(steps, i, buffer) ==>
      Stable(steps[i].readings) == Some(Ran(steps).volts[buffer])
  {
    if buffer in Ran(steps).volts { var i := StoredCounts(steps, buffer); }
    forall i: nat | i < |steps| && Counts(steps, i, buffer)
      ensures buffer in Ran(steps).volts && Stable(steps[i].readings) == Some(Ran(steps).volts[buffer])
    {
      CountingIsStored(steps, buffer, i);
    }
  }

  // ---- The object -----------------------------------------------------------------

  class PhCalibration {
    var volts: map<Buffer, real>
    var started: bool

    ghost function Now(): Session
      reads this
    {
      Session(volts, started)
    }

    constructor ()
      ensures Now() == FRESH
    {
      volts := map[];
      started := false;
    }

    /** Five readings, stopping at the first that is none. */
    method ReadAnalogPoint(readings: seq<Option<real>>) returns (volts: Option<real>)
      requires |readings| == READS
      ensures volts == Stable(readings)
    {
      var samples := [];
      for i := 0 to READS
        invariant |samples| == i
        invariant forall k :: 0 <= k < i ==> readings[k] == Some(samples[k])
      {
        if readings[i].None? { return None; }
        samples := samples + [readings[i].value];
      }
      assert samples == Values(readings);
      if Greatest(samples) - Least(samples) > MAX_SPREAD { return None; }
      volts := Some(Median(samples));
    }

    /** One step; whether it was applied or rejected. */
    method Handle(step: Step) returns (applied: bool)
      requires step.Point? ==> |step.readings| == READS
      modifies this
      ensures Now() == Stepped(old(Now()), step)
      ensures applied == match step
        case Start => true
        case Point(buffer, readings) => (buffer == 400 || buffer == 700) && old(started) && Stable(readings).Some?
        case Finish(accepts) =>
          old(started) && 400 in old(volts) && 700 in old(volts) && accepts &&
          (old(volts)[700] - old(volts)[400] >= 0.001 || old(volts)[400] - old(volts)[700] >= 0.001)
    {
      applied := false;
      match step
      case Start =>
        volts := map[];
        started := true;
        applied := true;
      case Point(buffer, readings) =>
        if (buffer != PH4 && buffer != PH7) || !started { return; }
        var v := ReadAnalogPoint(readings);
        if v.None? { return; }
        volts := volts[buffer := v.value];
        applied := true;
      case Finish(accepts) =>
        if !started || PH4 !in volts || PH7 !in volts { return; }
        var gap := volts[PH7] - volts[PH4];
        if -MIN_GAP < gap < MIN_GAP || !accepts { return; }
        volts := map[];
        started := false;
        applied := true;
    }
  }
}
