/** Crash safety of the OTA agent: what holds after every prefix of every
    operation it performs, and over every run of crashes and restarts. */
module OtaSafety {
  import opened Wrappers
  import opened Folding
  import opened Ota

  // ---- Every prefix ---------------------------------------------------------

  /** `inv` holds at the start and after every operation. */
  ghost predicate Along(inv: Fs -> bool, fs: Fs, ops: seq<Op>)
    decreases |ops|
  {
    inv(fs) && (ops != [] ==> Along(inv, Exec(fs, ops[0]), ops[1..]))
  }

  lemma {:induction false} AlongAppend(inv: Fs -> bool, fs: Fs, a: seq<Op>, b: seq<Op>)
    requires Along(inv, fs, a) && Along(inv, ExecAll(fs, a), b)
    ensures Along(inv, fs, a + b)
    decreases |a|
  {
    if a == [] {
      assert a + b == b;
    } else {
      assert (a + b)[1..] == a[1..] + b;
      AlongAppend(inv, Exec(fs, a[0]), a[1..], b);
    }
  }

  lemma {:induction false} AlongPrefix(inv: Fs -> bool, fs: Fs, ops: seq<Op>, cut: nat)
    requires Along(inv, fs, ops) && cut <= |ops|
    ensures inv(ExecAll(fs, ops[..cut]))
    decreases |ops|
  {
    if cut > 0 {
      assert ops[..cut][1..] == ops[1..][..cut - 1];
      AlongPrefix(inv, Exec(fs, ops[0]), ops[1..], cut - 1);
    }
  }

  lemma AlongOne(inv: Fs -> bool, fs: Fs, op: Op)
    requires inv(fs) && inv(Exec(fs, op))
    ensures Along(inv, fs, [op]) && ExecAll(fs, [op]) == Exec(fs, op)
  {
    FoldOne(Exec, fs, op);
    assert [op][1..] == [];
  }

  /** One operation more. */
  lemma AlongThen(inv: Fs -> bool, fs: Fs, ops: seq<Op>, op: Op)
    requires Along(inv, fs, ops) && inv(ExecAll(fs, ops)) && inv(Exec(ExecAll(fs, ops), op))
    ensures Along(inv, fs, ops + [op]) && ExecAll(fs, ops + [op]) == Exec(ExecAll(fs, ops), op)
  {
    AlongOne(inv, ExecAll(fs, ops), op);
    AlongAppend(inv, fs, ops, [op]);
    FoldAppend(Exec, fs, ops, [op]);
  }

  // ---- The invariant of one operation ------------------------------------------

  /** Good, and (when `dest` is given) recovery would end there. */
  ghost function Heading(dest: Option<string>): Fs -> bool {
    (fs: Fs) => Good(fs) && (dest.Some? ==> Destination(fs) == dest)
  }

  /** The same links and record over other directories. */
  predicate SameLinks(a: Fs, b: Fs) { a.current == b.current && a.record == b.record && a.tmp == b.tmp }

  predicate OnlyTouches(op: Op, dirs: set<string>) {
    match op
    case MakeDir(d) => d in dirs
    case FinishExtract(d) => d in dirs
    case BeginDelete(d) => d in dirs
    case FinishDelete(d) => d in dirs
    case Rename(from, to) => from in dirs && to in dirs
    case Compile(_) => true
    case Restart => true
    case _ => false
  }

  /** Operations on directories nobody needs keep everything. */
  lemma {:induction false} TouchingAside(dest: Option<string>, fs: Fs, ops: seq<Op>, dirs: set<string>)
    requires Heading(dest)(fs) && dirs !! Needed(fs)
    requires forall op :: op in ops ==> OnlyTouches(op, dirs)
    ensures Along(Heading(dest), fs, ops) && SameLinks(ExecAll(fs, ops), fs) && Heading(dest)(ExecAll(fs, ops))
    ensures forall d :: d in Needed(fs) ==> WholeAt(ExecAll(fs, ops), d)
    decreases |ops|
  {
    if ops != [] {
      var next := Exec(fs, ops[0]);
      assert OnlyTouches(ops[0], dirs);
      assert Needed(next) == Needed(fs);
      TouchingAside(dest, next, ops[1..], dirs);
    }
  }

  lemma StagingDiffers(version: string)
    ensures Staging(version) != version
  {
    assert |Staging(version)| == |version| + 8;
  }

  /** After unpacking, the new release is whole. */
  lemma UnpackUnpacks(fs: Fs, version: string)
    ensures WholeAt(ExecAll(fs, UnpackOps(fs, version)), version)
  {
    var st := Staging(version);
    StagingDiffers(version);
    var a, b, c, d := DeleteOps(fs, st), [MakeDir(st), FinishExtract(st)], DeleteOps(fs, version), [Rename(st, version), Compile(version)];
    FoldAppend(Exec, fs, a + b + c, d);
    FoldAppend(Exec, fs, a + b, c);
    FoldAppend(Exec, fs, a, b);
    DeletesOnly(fs, st);
    var f1 := ExecAll(fs, a);
    var f2 := ExecAll(f1, b);
    Two(f1, MakeDir(st), FinishExtract(st));
    assert version in f2.releases <==> version in fs.releases;
    DeletesOnly(f2, version);
    var f3 := ExecAll(f2, c);
    assert WholeAt(f3, st);
    Two(f3, Rename(st, version), Compile(version));
  }

  // ---- One cycle -----------------------------------------------------------------

  /** Where a cycle that does not finish must end: the release running before,
      when there was one and no earlier update was left hanging. */
  function Before(fs: Fs): Option<string> {
    if WouldRollBack(fs) then None else fs.current
  }

  lemma UnpackAlong(fs: Fs, version: string)
    requires Good(fs) && SafeTarget(fs, version)
    ensures Along(Heading(Before(fs)), fs, UnpackOps(fs, version))
    ensures var g := ExecAll(fs, UnpackOps(fs, version));
      SameLinks(g, fs) && WholeAt(g, version) && (fs.current.Some? ==> WholeAt(g, fs.current.value)) &&
      Heading(Before(fs))(g)
  {
    TouchingAside(Before(fs), fs, UnpackOps(fs, version), {version, Staging(version)});
    UnpackUnpacks(fs, version);
  }

  /** Recording an update that is not flipped yet changes no destination. */
  lemma RecordedHeading(fs: Fs, version: string, g: Fs)
    requires Good(fs) && SafeTarget(fs, version) && SameLinks(g, fs) && Heading(Before(fs))(g)
    requires fs.current.Some? ==> WholeAt(g, fs.current.value)
    ensures Heading(Before(fs))(Exec(g, WriteRecord(Record(Applying, version, fs.current))))
  {}

  /** Recorded, not yet flipped. */
  ghost predicate RecordedAt(fs: Fs, version: string, g: Fs) {
    && g.current == fs.current && g.tmp == fs.tmp && g.record == Record(Applying, version, fs.current)
    && WholeAt(g, version) && (fs.current.Some? ==> WholeAt(g, fs.current.value))
  }

  ghost predicate Recorded(fs: Fs, version: string, ops: seq<Op>) {
    Along(Heading(Before(fs)), fs, ops) && Heading(Before(fs))(ExecAll(fs, ops)) && RecordedAt(fs, version, ExecAll(fs, ops))
  }

  /** After any operations that unpack the release. */
  lemma RecordThen(inv: Fs -> bool, fs: Fs, version: string, a: seq<Op>, g: Fs)
    requires Good(fs) && SafeTarget(fs, version) && inv == Heading(Before(fs)) && Along(inv, fs, a)
    requires g == ExecAll(fs, a) && SameLinks(g, fs) && WholeAt(g, version) && inv(g)
    requires fs.current.Some? ==> WholeAt(g, fs.current.value)
    ensures Recorded(fs, version, a + [WriteRecord(Record(Applying, version, fs.current))])
  {
    var w := WriteRecord(Record(Applying, version, fs.current));
    RecordedHeading(fs, version, g);
    assert RecordedAt(fs, version, Exec(g, w));
    AlongThen(inv, fs, a, w);
  }

  lemma RecordAlong(fs: Fs, version: string)
    requires Good(fs) && SafeTarget(fs, version)
    ensures Recorded(fs, version, UnpackOps(fs, version) + [WriteRecord(Record(Applying, version, fs.current))])
  {
    UnpackAlong(fs, version);
    RecordThen(Heading(Before(fs)), fs, version, UnpackOps(fs, version), ExecAll(fs, UnpackOps(fs, version)));
  }

  /** Pointing `current` at `target` in three operations, with `dest` the way
      home before and after. */
  lemma FlipAlong(dest: Option<string>, fs: Fs, target: string)
    requires Heading(dest)(fs) && Heading(dest)(fs.(current := Some(target), tmp := None))
    ensures Along(Heading(dest), fs, FlipOps(fs, target))
    ensures ExecAll(fs, FlipOps(fs, target)) == fs.(current := Some(target), tmp := None)
  {
    var a: seq<Op> := if fs.tmp.Some? then [UnlinkTmp] else [];
    var f1 := fs.(tmp := None);
    if fs.tmp.Some? { AlongOne(Heading(dest), fs, UnlinkTmp); }
    var f2 := fs.(tmp := Some(target));
    AlongOne(Heading(dest), f1, LinkTmp(target));
    AlongOne(Heading(dest), f2, ReplaceCurrent);
    Two(f1, LinkTmp(target), ReplaceCurrent);
    assert [LinkTmp(target), ReplaceCurrent] == [LinkTmp(target)] + [ReplaceCurrent];
    AlongAppend(Heading(dest), f1, [LinkTmp(target)], [ReplaceCurrent]);
    FoldAppend(Exec, fs, a, [LinkTmp(target), ReplaceCurrent]);
    AlongAppend(Heading(dest), fs, a, [LinkTmp(target), ReplaceCurrent]);
  }

  /** The file system after a complete apply. */
  ghost predicate Applied(fs: Fs, version: string, g: Fs) {
    && g.current == Some(version) && g.tmp == None && WholeAt(g, version)
    && (fs.current.Some? ==> WholeAt(g, fs.current.value))
    && g.record == Record(Applying, version, fs.current)
  }

  lemma ApplyAlong(fs: Fs, version: string)
    requires Good(fs) && SafeTarget(fs, version)
    ensures Along(Heading(Before(fs)), fs, ApplyOps(fs, version))
    ensures Applied(fs, version, ExecAll(fs, ApplyOps(fs, version)))
  {
    var inv := Heading(Before(fs));
    var a := UnpackOps(fs, version) + [WriteRecord(Record(Applying, version, fs.current))];
    var c := FlipOps(fs, version);
    RecordAlong(fs, version);
    var f2 := ExecAll(fs, a);
    assert FlipOps(f2, version) == c;
    FlipAlong(Before(fs), f2, version);
    AlongAppend(inv, fs, a, c);
    FoldAppend(Exec, fs, a, c);
    AlongThen(inv, fs, a + c, Restart);
  }

  lemma RollbackAlong(dest: Option<string>, fs: Fs, previous: string, version: string)
    requires Good(fs) && WholeAt(fs, previous) && previous != version
    requires Unfinished(fs.record) && fs.record.version == version
    requires dest.Some? ==> Destination(fs) == dest == Some(previous)
    ensures Along(Heading(dest), fs, RollbackOps(fs, previous, version))
    ensures var g := ExecAll(fs, RollbackOps(fs, previous, version));
      g == fs.(current := Some(previous), tmp := None, record := Record(RolledBack, version, Some(previous)))
  {
    var a, w := FlipOps(fs, previous), WriteRecord(Record(RolledBack, version, Some(previous)));
    FlipAlong(dest, fs, previous);
    var f1 := ExecAll(fs, a);
    AlongOne(Heading(dest), f1, Restart);
    AlongOne(Heading(dest), f1, w);
    Two(f1, Restart, w);
    assert [Restart, w] == [Restart] + [w];
    AlongAppend(Heading(dest), f1, [Restart], [w]);
    AlongAppend(Heading(dest), fs, a, [Restart, w]);
    FoldAppend(Exec, fs, a, [Restart, w]);
  }

  lemma {:induction false} PruneTouches(victims: seq<string>, op: Op, dirs: set<string>)
    requires op in PruneOps(victims) && forall d :: d in victims ==> d in dirs
    ensures OnlyTouches(op, dirs)
    decreases |victims|
  {
    if op !in [BeginDelete(victims[0]), FinishDelete(victims[0])] {
      PruneTouches(victims[1..], op, dirs);
    }
  }

  lemma PruneAlong(fs: Fs, victims: seq<string>)
    requires Good(fs) && !WouldRollBack(fs) && forall d :: d in victims ==> fs.current != Some(d)
    ensures Along(Heading(fs.current), fs, PruneOps(victims)) && SameLinks(ExecAll(fs, PruneOps(victims)), fs)
    ensures fs.current.Some? ==> WholeAt(ExecAll(fs, PruneOps(victims)), fs.current.value)
  {
    var dirs := set d | d in victims;
    forall op | op in PruneOps(victims) ensures OnlyTouches(op, dirs) {
      PruneTouches(victims, op, dirs);
    }
    TouchingAside(fs.current, fs, PruneOps(victims), dirs);
  }

  /** A verdict of "failed" puts the previous release back. */
  lemma FailureAlong(fs: Fs, version: string, g: Fs)
    requires Applied(fs, version, g) && fs.current != Some(version)
    ensures Along(Heading(fs.current), g, VerdictOps(fs, version, false, [], 0))
    ensures var t := ExecAll(g, VerdictOps(fs, version, false, [], 0));
      !Unfinished(t.record) && t.current == if fs.current.Some? then fs.current else Some(version)
  {
    var w := WriteRecord(Record(SelfTest, version, fs.current));
    var h := Exec(g, w);
    var rest := VerdictOps(fs, version, false, [], 0)[1..];
    assert VerdictOps(fs, version, false, [], 0) == [w] + rest;
    AlongOne(Heading(fs.current), g, w);
    FoldAppend(Exec, g, [w], rest);
    if fs.current.None? {
      AlongOne(Heading(fs.current), h, rest[0]);
      assert rest == [rest[0]];
    } else {
      assert rest == RollbackOps(h, fs.current.value, version);
      RollbackAlong(fs.current, h, fs.current.value, version);
    }
    AlongAppend(Heading(fs.current), g, [w], rest);
  }

  /** A verdict of "passed" keeps the new release through the pruning. */
  lemma SuccessAlong(fs: Fs, version: string, g: Fs, newestFirst: seq<string>, keep: nat)
    requires Applied(fs, version, g) && fs.current != Some(version)
    ensures Along(Heading(None), g, VerdictOps(fs, version, true, newestFirst, keep))
    ensures Heading(fs.current)(Exec(g, VerdictOps(fs, version, true, newestFirst, keep)[0]))
    ensures var t := ExecAll(g, VerdictOps(fs, version, true, newestFirst, keep));
      !Unfinished(t.record) && t.current == Some(version)
  {
    var w, v := WriteRecord(Record(SelfTest, version, fs.current)), WriteRecord(Record(Success, version, None));
    var victims := Victims(newestFirst, keep, Protected(version, fs.current));
    var prune := PruneOps(victims);
    var h := Exec(Exec(g, w), v);
    AlongOne(Heading(None), g, w);
    AlongOne(Heading(None), Exec(g, w), v);
    AlongAppend(Heading(None), g, [w], [v]);
    Two(g, w, v);
    assert [w] + [v] == [w, v];
    PruneAlong(h, victims);
    Weaken(h.current, h, prune);
    AlongAppend(Heading(None), g, [w, v], prune);
    FoldAppend(Exec, g, [w, v], prune);
    assert VerdictOps(fs, version, true, newestFirst, keep) == [w, v] + prune;
  }

  lemma {:induction false} Weaken(dest: Option<string>, fs: Fs, ops: seq<Op>)
    requires Along(Heading(dest), fs, ops)
    ensures Along(Heading(None), fs, ops)
    decreases |ops|
  {
    if ops != [] {
      Weaken(dest, Exec(fs, ops[0]), ops[1..]);
    }
  }

  // ---- Crash anywhere ----------------------------------------------------------------

  /** However far a cycle to a safe target gets, `current` names a whole
      release and the rollback target is there. */
  lemma CycleGood(fs: Fs, version: string, passed: bool, newestFirst: seq<string>, keep: nat)
    requires Good(fs) && SafeTarget(fs, version)
    ensures Along(Heading(None), fs, CycleOps(fs, version, passed, newestFirst, keep))
  {
    var a := ApplyOps(fs, version);
    var g := ExecAll(fs, a);
    ApplyAlong(fs, version);
    Weaken(Before(fs), fs, a);
    if passed {
      SuccessAlong(fs, version, g, newestFirst, keep);
    } else {
      FailureAlong(fs, version, g);
      Weaken(fs.current, g, VerdictOps(fs, version, false, [], 0));
    }
    AlongAppend(Heading(None), fs, a, VerdictOps(fs, version, passed, newestFirst, keep));
  }

  /** The cycle has not yet recorded success. */
  predicate NotYetSuccess(fs: Fs, version: string, passed: bool, cut: nat) {
    !passed || cut <= |ApplyOps(fs, version)| + 1
  }

  /** Until success is recorded, recovery would end at the release that ran
      before. */
  lemma CycleComesHome(fs: Fs, version: string, passed: bool, newestFirst: seq<string>, keep: nat, cut: nat)
    requires Good(fs) && SafeTarget(fs, version) && !WouldRollBack(fs) && fs.current.Some?
    requires cut <= |CycleOps(fs, version, passed, newestFirst, keep)| && NotYetSuccess(fs, version, passed, cut)
    ensures Heading(fs.current)(ExecAll(fs, CycleOps(fs, version, passed, newestFirst, keep)[..cut]))
  {
    var a, v := ApplyOps(fs, version), VerdictOps(fs, version, passed, newestFirst, keep);
    ApplyAlong(fs, version);
    if cut <= |a| {
      assert (a + v)[..cut] == a[..cut];
      AlongPrefix(Heading(fs.current), fs, a, cut);
    } else {
      var g := ExecAll(fs, a);
      assert (a + v)[..cut] == a + v[..cut - |a|];
      FoldAppend(Exec, fs, a, v[..cut - |a|]);
      if passed {
        SuccessAlong(fs, version, g, newestFirst, keep);
        assert v[..1] == [v[0]];
        FoldOne(Exec, g, v[0]);
      } else {
        FailureAlong(fs, version, g);
        assert v == VerdictOps(fs, version, false, [], 0);
        AlongPrefix(Heading(fs.current), g, v, cut - |a|);
      }
    }
  }

  /** Recovery heads for one destination from its first operation to its last,
      and a complete one gets there and settles the record. */
  lemma RecoverAlong(fs: Fs)
    requires Good(fs)
    ensures Along(Heading(Destination(fs)), fs, RecoverOps(fs))
    ensures var t := ExecAll(fs, RecoverOps(fs));
      t.current == Destination(fs) && !Unfinished(t.record) && Good(t)
  {
    if WouldRollBack(fs) {
      RollbackAlong(Destination(fs), fs, fs.record.previous.value, fs.record.version);
    } else if Unfinished(fs.record) {
      AlongOne(Heading(Destination(fs)), fs, RecoverOps(fs)[0]);
    }
  }

  // ---- Runs ------------------------------------------------------------------------------

  /** One activity of the agent, performed up to operation `cut`. */
  datatype Episode =
    | Cycle(version: string, passed: bool, newestFirst: seq<string>, keep: nat, cut: nat)
    | Recovery(cut: nat)

  function EpisodeOps(fs: Fs, e: Episode): seq<Op> {
    match e
    case Cycle(version, passed, newestFirst, keep, _) => CycleOps(fs, version, passed, newestFirst, keep)
    case Recovery(_) => RecoverOps(fs)
  }

  function After(fs: Fs, e: Episode): Fs {
    var ops := EpisodeOps(fs, e);
    ExecAll(fs, if e.cut < |ops| then ops[..e.cut] else ops)
  }

  function Run(fs: Fs, es: seq<Episode>): Fs
    decreases |es|
  {
    if es == [] then fs else Run(After(fs, es[0]), es[1..])
  }

  /** Every update begun in the run writes over nothing needed at the time. */
  predicate SafeTargets(fs: Fs, es: seq<Episode>)
    decreases |es|
  {
    es == [] || ((es[0].Cycle? ==> SafeTarget(fs, es[0].version)) && SafeTargets(After(fs, es[0]), es[1..]))
  }

  lemma EpisodeGood(fs: Fs, e: Episode)
    requires Good(fs) && (e.Cycle? ==> SafeTarget(fs, e.version))
    ensures Good(After(fs, e))
  {
    var ops := EpisodeOps(fs, e);
    var cut := if e.cut < |ops| then e.cut else |ops|;
    assert ops[..|ops|] == ops;
    if e.Cycle? {
      CycleGood(fs, e.version, e.passed, e.newestFirst, e.keep);
      AlongPrefix(Heading(None), fs, ops, cut);
    } else {
      RecoverAlong(fs);
      AlongPrefix(Heading(Destination(fs)), fs, ops, cut);
    }
  }

  /** For any sequence of updates and recoveries, each cut off at any operation
      by a crash or an exception, `current` always names a whole release and
      the recorded rollback target is always there. */
  lemma {:induction false} AlwaysGood(fs: Fs, es: seq<Episode>)
    requires Good(fs) && SafeTargets(fs, es)
    ensures Good(Run(fs, es))
    decreases |es|
  {
    if es != [] {
      EpisodeGood(fs, es[0]);
      AlwaysGood(After(fs, es[0]), es[1..]);
    }
  }

  /** Recoveries that are themselves interrupted, any number of times. */
  lemma {:induction false} InterruptedRecoveries(fs: Fs, cuts: seq<nat>)
    requires Good(fs) && fs.current.Some?
    ensures var t := Run(fs, seq(|cuts|, i requires 0 <= i < |cuts| => Recovery(cuts[i])));
      Good(t) && t.current.Some? && Destination(t) == Destination(fs)
    decreases |cuts|
  {
    var es := seq(|cuts|, i requires 0 <= i < |cuts| => Recovery(cuts[i]));
    if cuts != [] {
      var ops := RecoverOps(fs);
      var cut := if cuts[0] < |ops| then cuts[0] else |ops|;
      assert ops[..|ops|] == ops;
      RecoverAlong(fs);
      AlongPrefix(Heading(Destination(fs)), fs, ops, cut);
      var g := After(fs, es[0]);
      InterruptedRecoveries(g, cuts[1..]);
      assert es[1..] == seq(|cuts[1..]|, i requires 0 <= i < |cuts[1..]| => Recovery(cuts[1..][i]));
    }
  }

  /** An update that crashes anywhere before it recorded success, followed by
      any number of crashed recoveries and one that completes, leaves the unit
      on the release that ran before it, whole, with the record settled. */
  lemma CrashedUpdateIsUndone(fs: Fs, version: string, passed: bool, newestFirst: seq<string>, keep: nat, cut: nat,
                              cuts: seq<nat>)
    requires Good(fs) && SafeTarget(fs, version) && !WouldRollBack(fs) && fs.current.Some?
    requires cut <= |CycleOps(fs, version, passed, newestFirst, keep)| && NotYetSuccess(fs, version, passed, cut)
    ensures var g := ExecAll(fs, CycleOps(fs, version, passed, newestFirst, keep)[..cut]);
      var h := Run(g, seq(|cuts|, i requires 0 <= i < |cuts| => Recovery(cuts[i])));
      var t := ExecAll(h, RecoverOps(h));
      t.current == fs.current && WholeAt(t, fs.current.value) && !Unfinished(t.record)
  {
    CycleComesHome(fs, version, passed, newestFirst, keep, cut);
    var g := ExecAll(fs, CycleOps(fs, version, passed, newestFirst, keep)[..cut]);
    InterruptedRecoveries(g, cuts);
    RecoverAlong(Run(g, seq(|cuts|, i requires 0 <= i < |cuts| => Recovery(cuts[i]))));
  }

  // ---- When is a target safe? ---------------------------------------------------------------

  /** With no update left hanging, the agent's own check (the target is not the
      installed version) is enough, as long as no release is named like a
      staging directory. */
  lemma CheckIsEnough(fs: Fs, version: string, builtin: string)
    requires !WouldRollBack(fs) && version != Installed(fs, builtin)
    requires fs.current.Some? ==> fs.current.value != Staging(version)
    ensures SafeTarget(fs, version)
  {}

  /** A completed update or recovery leaves nothing hanging. */
  lemma CompletedLeavesNothing(fs: Fs, version: string, passed: bool, newestFirst: seq<string>, keep: nat)
    requires Good(fs) && SafeTarget(fs, version)
    ensures !WouldRollBack(ExecAll(fs, CycleOps(fs, version, passed, newestFirst, keep)))
    ensures !WouldRollBack(ExecAll(fs, RecoverOps(fs)))
  {
    var a, v := ApplyOps(fs, version), VerdictOps(fs, version, passed, newestFirst, keep);
    var g := ExecAll(fs, a);
    ApplyAlong(fs, version);
    FoldAppend(Exec, fs, a, v);
    if passed {
      SuccessAlong(fs, version, g, newestFirst, keep);
    } else {
      FailureAlong(fs, version, g);
      assert v == VerdictOps(fs, version, false, [], 0);
    }
    RecoverAlong(fs);
  }

  lemma {:induction false} KeepsCurrent(fs: Fs, ops: seq<Op>)
    requires forall op :: op in ops ==> !op.ReplaceCurrent?
    ensures ExecAll(fs, ops).current == fs.current
    ensures (forall op :: op in ops ==> !op.WriteRecord?) ==> ExecAll(fs, ops).record == fs.record
    decreases |ops|
  {
    if ops != [] {
      assert !ops[0].ReplaceCurrent? && (ops[0].WriteRecord? ==> ops[0] in ops);
      KeepsCurrent(Exec(fs, ops[0]), ops[1..]);
    }
  }

  /** How many operations of an update to `version` come before the flip. */
  function BeforeFlip(fs: Fs, version: string): nat { |ApplyOps(fs, version)| - 2 }

  /** A cycle cut off before its flip leaves nothing hanging. */
  lemma UnflippedLeavesNothing(fs: Fs, version: string, ops: seq<Op>)
    requires Good(fs) && SafeTarget(fs, version) && !WouldRollBack(fs)
    requires |ops| <= BeforeFlip(fs, version) && ops <= ApplyOps(fs, version)
    ensures !WouldRollBack(ExecAll(fs, ops))
  {
    ApplyAlong(fs, version);
    AlongPrefix(Heading(fs.current), fs, ApplyOps(fs, version), |ops|);
    assert ops == ApplyOps(fs, version)[..|ops|];
    forall op | op in ops ensures !op.ReplaceCurrent? {
      var i :| 0 <= i < |ops| && ops[i] == op;
      UnflippedOp(fs, version, i);
    }
    KeepsCurrent(fs, ops);
  }

  lemma UnflippedOp(fs: Fs, version: string, i: nat)
    requires i < BeforeFlip(fs, version)
    ensures !ApplyOps(fs, version)[i].ReplaceCurrent?
  {}

  /** As far as the cuts tell, the episode may end with a rollback pending: a
      cycle cut off after its flip, or a recovery cut off before its own. */
  predicate MayHang(fs: Fs, e: Episode, before: bool) {
    match e
    case Cycle(version, _, _, _, cut) => BeforeFlip(fs, version) < cut < |EpisodeOps(fs, e)|
    case Recovery(cut) => before && cut < |EpisodeOps(fs, e)|
  }

  lemma EpisodeHangs(fs: Fs, e: Episode, before: bool)
    requires Good(fs) && (WouldRollBack(fs) ==> before)
    requires e.Cycle? ==> !before && SafeTarget(fs, e.version)
    ensures WouldRollBack(After(fs, e)) ==> MayHang(fs, e, before)
  {
    var ops := EpisodeOps(fs, e);
    match e
    case Cycle(version, passed, newestFirst, keep, cut) =>
      if cut <= BeforeFlip(fs, version) {
        assert ops[..cut] == ApplyOps(fs, version)[..cut];
        UnflippedLeavesNothing(fs, version, ops[..cut]);
      } else if cut >= |ops| {
        CompletedLeavesNothing(fs, version, passed, newestFirst, keep);
      }
    case Recovery(cut) =>
      if cut >= |ops| {
        RecoverAlong(fs);
      } else if !WouldRollBack(fs) {
        assert |ops| <= 1 && ops[..cut] == [];
      }
  }

  /** The runs of the agent itself: a target differs from the installed version
      and `current` is not named like its staging directory, and no update
      begins while `pending` says that one may be left hanging. */
  predicate AgentRun(fs: Fs, es: seq<Episode>, builtin: string, pending: bool)
    decreases |es|
  {
    es == [] ||
    (var e := es[0];
     (e.Cycle? ==> !pending && e.version != Installed(fs, builtin) && fs.current != Some(Staging(e.version))) &&
     AgentRun(After(fs, e), es[1..], builtin, MayHang(fs, e, pending)))
  }

  /** So the agent's own check is enough, over any run of updates and
      recoveries cut off anywhere, as long as a recovery completes after every
      update that was cut off past its flip, and at start-up: no update writes
      over anything needed, and `current` always names a whole release. */
  lemma {:induction false} CheckedRunsAreGood(fs: Fs, es: seq<Episode>, builtin: string, pending: bool)
    requires Good(fs) && (WouldRollBack(fs) ==> pending) && AgentRun(fs, es, builtin, pending)
    ensures SafeTargets(fs, es) && Good(Run(fs, es))
    decreases |es|
  {
    if es != [] {
      var e := es[0];
      if e.Cycle? { CheckIsEnough(fs, e.version, builtin); }
      EpisodeGood(fs, e);
      EpisodeHangs(fs, e, pending);
      CheckedRunsAreGood(After(fs, e), es[1..], builtin, MayHang(fs, e, pending));
    }
  }

  /** The first operations of an update: clearing the way for its staging
      directory, then for the release. */
  lemma ClearingBreaks(fs: Fs, version: string, dir: string, passed: bool, newestFirst: seq<string>, keep: nat)
    returns (cut: nat)
    requires dir == version || dir == Staging(version)
    requires WholeAt(fs, dir)
    ensures cut <= |CycleOps(fs, version, passed, newestFirst, keep)|
    ensures var g := ExecAll(fs, CycleOps(fs, version, passed, newestFirst, keep)[..cut]);
      SameLinks(g, fs) && dir in g.releases && g.releases[dir] == Broken &&
      forall d :: d in fs.releases && d != version && d != Staging(version) ==>
        d in g.releases && g.releases[d] == fs.releases[d]
  {
    var ops := CycleOps(fs, version, passed, newestFirst, keep);
    var st := Staging(version);
    StagingDiffers(version);
    if dir == st {
      cut := 1;
      assert ops[..1] == [BeginDelete(st)];
      FoldOne(Exec, fs, BeginDelete(st));
    } else {
      var a, b := DeleteOps(fs, st), [MakeDir(st), FinishExtract(st)];
      cut := |a| + 3;
      assert ops[..cut] == a + b + [BeginDelete(version)];
      FoldAppend(Exec, fs, a + b, [BeginDelete(version)]);
      FoldAppend(Exec, fs, a, b);
      DeletesOnly(fs, st);
      Two(ExecAll(fs, a), MakeDir(st), FinishExtract(st));
      FoldOne(Exec, ExecAll(fs, a + b), BeginDelete(version));
    }
  }

  /** The condition is exact: an update to a version the agent would accept can
      be cut off in a state that has lost a needed release if and only if its
      directory, or its staging directory, is needed. */
  lemma SafeTargetExact(fs: Fs, version: string, passed: bool, newestFirst: seq<string>, keep: nat)
    requires Good(fs)
    ensures SafeTarget(fs, version) <==>
      forall cut :: 0 <= cut <= |CycleOps(fs, version, passed, newestFirst, keep)| ==>
        Good(ExecAll(fs, CycleOps(fs, version, passed, newestFirst, keep)[..cut]))
  {
    var ops := CycleOps(fs, version, passed, newestFirst, keep);
    if SafeTarget(fs, version) {
      CycleGood(fs, version, passed, newestFirst, keep);
      forall cut | 0 <= cut <= |ops| ensures Good(ExecAll(fs, ops[..cut])) {
        AlongPrefix(Heading(None), fs, ops, cut);
      }
    } else {
      var dir := if version in Needed(fs) then version else Staging(version);
      var cut := ClearingBreaks(fs, version, dir, passed, newestFirst, keep);
      assert !Good(ExecAll(fs, ops[..cut]));
    }
  }

  /** With a rollback pending the agent's check accepts the recorded previous
      release as a target. If power goes while that release is being deleted,
      recovery makes the half-deleted release current. */
  lemma DowngradeWhileHanging(fs: Fs, passed: bool, newestFirst: seq<string>, keep: nat) returns (cut: nat)
    requires Good(fs) && WouldRollBack(fs) && fs.record.version != Staging(fs.record.previous.value)
    ensures var home := fs.record.previous.value; var back := CycleOps(fs, home, passed, newestFirst, keep);
      && home != Installed(fs, "") && cut <= |back|
      && EndsBroken(ExecAll(fs, back[..cut]), home)
  {
    var home := fs.record.previous.value;
    cut := ClearingBreaks(fs, home, home, passed, newestFirst, keep);
    RollbackResult(ExecAll(fs, CycleOps(fs, home, passed, newestFirst, keep)[..cut]), home, fs.record.version);
  }

  /** Recovery ends with `current` on a broken release. */
  ghost predicate EndsBroken(fs: Fs, home: string) {
    var t := ExecAll(fs, RecoverOps(fs));
    t.current == Some(home) && home in t.releases && t.releases[home] == Broken
  }

  /** Three ways the agent itself gets there. The restart after a flip raises, and
      the agent carries on without recovering. */
  lemma HangingUpdateThenDowngrade(fs: Fs, version: string, passed: bool, newestFirst: seq<string>, keep: nat)
    returns (cut: nat)
    requires Good(fs) && !WouldRollBack(fs) && fs.current.Some? && SafeTarget(fs, version)
    requires version != Staging(fs.current.value)
    ensures var home := fs.current.value; var hanging := ExecAll(fs, ApplyOps(fs, version));
      var back := CycleOps(hanging, home, passed, newestFirst, keep);
      && home != Installed(hanging, "") && cut <= |back|
      && EndsBroken(ExecAll(hanging, back[..cut]), home)
  {
    ApplyAlong(fs, version);
    cut := DowngradeWhileHanging(ExecAll(fs, ApplyOps(fs, version)), passed, newestFirst, keep);
  }

  /** Or the recovery at start-up raises before its own flip, which is
      suppressed, and the agent goes on to its first check. */
  lemma SuppressedRecoveryThenDowngrade(fs: Fs, reached: nat, passed: bool, newestFirst: seq<string>, keep: nat)
    returns (cut: nat)
    requires Good(fs) && WouldRollBack(fs) && fs.record.version != Staging(fs.record.previous.value)
    requires reached < |FlipOps(fs, fs.record.previous.value)|
    ensures var home := fs.record.previous.value; var hanging := After(fs, Recovery(reached));
      var back := CycleOps(hanging, home, passed, newestFirst, keep);
      && home != Installed(hanging, "") && cut <= |back|
      && EndsBroken(ExecAll(hanging, back[..cut]), home)
  {
    var ops := RecoverOps(fs)[..reached];
    RecoverAlong(fs);
    AlongPrefix(Heading(Destination(fs)), fs, RecoverOps(fs), reached);
    forall op | op in ops ensures !op.ReplaceCurrent? && !op.WriteRecord? {}
    KeepsCurrent(fs, ops);
    cut := DowngradeWhileHanging(After(fs, Recovery(reached)), passed, newestFirst, keep);
  }

  /** What an update that passed does when the record of its success cannot be
      written, which is only logged. */
  function UnrecordedOps(fs: Fs, version: string, newestFirst: seq<string>, keep: nat): seq<Op> {
    ApplyOps(fs, version) + ([WriteRecord(Record(SelfTest, version, fs.current))]
                             + PruneOps(Victims(newestFirst, keep, Protected(version, fs.current))))
  }

  /** Or a success that is not recorded: the record still says self-test. */
  lemma UnrecordedSuccessThenDowngrade(fs: Fs, version: string, pruned: seq<string>, kept: nat,
                                       passed: bool, newestFirst: seq<string>, keep: nat)
    returns (cut: nat)
    requires Good(fs) && !WouldRollBack(fs) && fs.current.Some? && SafeTarget(fs, version)
    requires version != Staging(fs.current.value)
    ensures var home := fs.current.value; var hanging := ExecAll(fs, UnrecordedOps(fs, version, pruned, kept));
      var back := CycleOps(hanging, home, passed, newestFirst, keep);
      && home != Installed(hanging, "") && cut <= |back|
      && EndsBroken(ExecAll(hanging, back[..cut]), home)
  {
    var w := WriteRecord(Record(SelfTest, version, fs.current));
    var victims := Victims(pruned, kept, Protected(version, fs.current));
    var dirs := set d | d in victims;
    ApplyAlong(fs, version);
    var g := ExecAll(fs, ApplyOps(fs, version));
    var h := Exec(g, w);
    forall op | op in PruneOps(victims) ensures OnlyTouches(op, dirs) { PruneTouches(victims, op, dirs); }
    TouchingAside(None, h, PruneOps(victims), dirs);
    FoldOne(Exec, g, w);
    FoldAppend(Exec, g, [w], PruneOps(victims));
    FoldAppend(Exec, fs, ApplyOps(fs, version), [w] + PruneOps(victims));
    cut := DowngradeWhileHanging(ExecAll(h, PruneOps(victims)), passed, newestFirst, keep);
  }

  lemma RollbackResult(fs: Fs, previous: string, version: string)
    ensures ExecAll(fs, RollbackOps(fs, previous, version))
         == fs.(current := Some(previous), tmp := None, record := Record(RolledBack, version, Some(previous)))
  {
    var w := WriteRecord(Record(RolledBack, version, Some(previous)));
    var a: seq<Op> := if fs.tmp.Some? then [UnlinkTmp] else [];
    Two(fs.(tmp := None), LinkTmp(previous), ReplaceCurrent);
    if fs.tmp.Some? { FoldOne(Exec, fs, UnlinkTmp); }
    FoldAppend(Exec, fs, a, [LinkTmp(previous), ReplaceCurrent]);
    FoldAppend(Exec, fs, FlipOps(fs, previous), [Restart, w]);
    Two(ExecAll(fs, FlipOps(fs, previous)), Restart, w);
  }
}
