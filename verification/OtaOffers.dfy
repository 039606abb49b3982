/** Which releases a unit can come to run: over any run of checks and
    recoveries, each cut off anywhere, only those it was offered, downloaded,
    verified and found to need no dependencies. */
module OtaOffers {
  import opened Wrappers
  import opened Folding
  import opened Ota
  import opened OtaSafety

  /** One turn of the agent, performed up to operation `cut`. */
  datatype Turn =
    | Check(offer: Offer, passed: bool, newestFirst: seq<string>, keep: nat, cut: nat)
    | Recover(cut: nat)

  function TurnOps(fs: Fs, turn: Turn, builtin: string): seq<Op> {
    match turn
    case Check(offer, passed, newestFirst, keep, _) => CheckOps(fs, offer, builtin, passed, newestFirst, keep)
    case Recover(_) => RecoverOps(fs)
  }

  function Taken(fs: Fs, turn: Turn, builtin: string): Fs {
    var ops := TurnOps(fs, turn, builtin);
    ExecAll(fs, if turn.cut < |ops| then ops[..turn.cut] else ops)
  }

  function Turns(fs: Fs, turns: seq<Turn>, builtin: string): Fs
    decreases |turns|
  {
    if turns == [] then fs else Turns(Taken(fs, turns[0], builtin), turns[1..], builtin)
  }

  // ---- Names ------------------------------------------------------------------

  /** `current`, and the way back an unfinished record keeps, are among these. */
  ghost function Within(names: set<string>): Fs -> bool {
    (fs: Fs) =>
      && (fs.current.Some? ==> fs.current.value in names)
      && (Unfinished(fs.record) && fs.record.previous.Some? ==> fs.record.previous.value in names)
  }

  /** The operation changes no link, and records no other way back. */
  predicate Harmless(op: Op, names: set<string>) {
    && !op.ReplaceCurrent?
    && (op.WriteRecord? && Unfinished(op.record) && op.record.previous.Some? ==> op.record.previous.value in names)
  }

  lemma {:induction false} HarmlessAlong(names: set<string>, fs: Fs, ops: seq<Op>)
    requires Within(names)(fs) && forall op :: op in ops ==> Harmless(op, names)
    ensures Along(Within(names), fs, ops) && Within(names)(ExecAll(fs, ops))
    decreases |ops|
  {
    if ops != [] {
      assert Harmless(ops[0], names);
      HarmlessAlong(names, Exec(fs, ops[0]), ops[1..]);
    }
  }

  lemma FlipWithin(names: set<string>, fs: Fs, target: string)
    requires Within(names)(fs) && target in names
    ensures Along(Within(names), fs, FlipOps(fs, target)) && Within(names)(ExecAll(fs, FlipOps(fs, target)))
  {
    var a := (if fs.tmp.Some? then [UnlinkTmp] else []) + [LinkTmp(target)];
    var f1 := if fs.tmp.Some? then Exec(fs, UnlinkTmp) else fs;
    HarmlessAlong(names, fs, a);
    if fs.tmp.Some? { Two(fs, UnlinkTmp, LinkTmp(target)); } else { FoldOne(Exec, fs, LinkTmp(target)); }
    assert ExecAll(fs, a) == Exec(f1, LinkTmp(target));
    AlongThen(Within(names), fs, a, ReplaceCurrent);
    assert FlipOps(fs, target) == a + [ReplaceCurrent];
  }

  /** Harmless operations, a flip to one of the names, harmless ones again. */
  lemma AroundFlip(names: set<string>, fs: Fs, before: seq<Op>, target: string, after: seq<Op>)
    requires Within(names)(fs) && target in names
    requires forall op :: op in before || op in after ==> Harmless(op, names)
    ensures var flip := FlipOps(ExecAll(fs, before), target);
      Along(Within(names), fs, before + flip + after) && Within(names)(ExecAll(fs, before + flip + after))
  {
    var f1 := ExecAll(fs, before);
    var flip := FlipOps(f1, target);
    HarmlessAlong(names, fs, before);
    FlipWithin(names, f1, target);
    AlongAppend(Within(names), fs, before, flip);
    FoldAppend(Exec, fs, before, flip);
    HarmlessAlong(names, ExecAll(f1, flip), after);
    AlongAppend(Within(names), fs, before + flip, after);
    FoldAppend(Exec, fs, before + flip, after);
  }

  lemma UnpackHarmless(fs: Fs, version: string, names: set<string>)
    requires Within(names)(fs)
    ensures var w := WriteRecord(Record(Applying, version, fs.current));
      forall op :: op in UnpackOps(fs, version) + [w] ==> Harmless(op, names)
  {}

  lemma ApplyWithin(names: set<string>, fs: Fs, version: string)
    requires Within(names)(fs) && version in names
    ensures Along(Within(names), fs, ApplyOps(fs, version)) && Within(names)(ExecAll(fs, ApplyOps(fs, version)))
  {
    var w := WriteRecord(Record(Applying, version, fs.current));
    var before := UnpackOps(fs, version) + [w];
    UnpackHarmless(fs, version, names);
    UnpackKeepsLinks(fs, version);
    FoldAppend(Exec, fs, UnpackOps(fs, version), [w]);
    FoldOne(Exec, ExecAll(fs, UnpackOps(fs, version)), w);
    AroundFlip(names, fs, before, version, [Restart]);
    assert FlipOps(ExecAll(fs, before), version) == FlipOps(fs, version);
  }

  lemma {:induction false} PruneHarmless(victims: seq<string>, op: Op, names: set<string>)
    requires op in PruneOps(victims)
    ensures Harmless(op, names)
    decreases |victims|
  {
    if op !in [BeginDelete(victims[0]), FinishDelete(victims[0])] {
      PruneHarmless(victims[1..], op, names);
    }
  }

  lemma VerdictWithin(names: set<string>, fs: Fs, g: Fs, version: string, passed: bool, newestFirst: seq<string>, keep: nat)
    requires Within(names)(fs) && Within(names)(g) && g.tmp == None
    ensures Along(Within(names), g, VerdictOps(fs, version, passed, newestFirst, keep))
  {
    var w := WriteRecord(Record(SelfTest, version, fs.current));
    if passed {
      var v := WriteRecord(Record(Success, version, None));
      var prune := PruneOps(Victims(newestFirst, keep, Protected(version, fs.current)));
      forall op | op in [w] + ([v] + prune) ensures Harmless(op, names) {
        if op != w && op != v {
          PruneHarmless(Victims(newestFirst, keep, Protected(version, fs.current)), op, names);
        }
      }
      HarmlessAlong(names, g, [w] + ([v] + prune));
    } else if fs.current.None? {
      HarmlessAlong(names, g, [w] + [WriteRecord(Record(Failed, version, None))]);
    } else {
      var home := fs.current.value;
      var settle := [Restart, WriteRecord(Record(RolledBack, version, Some(home)))];
      FoldOne(Exec, g, w);
      AroundFlip(names, g, [w], home, settle);
      assert FlipOps(ExecAll(g, [w]), home) == FlipOps(fs.(tmp := None), home);
      Regroup([w], FlipOps(fs.(tmp := None), home), settle);
    }
  }

  lemma TurnWithin(names: set<string>, fs: Fs, turn: Turn, builtin: string)
    requires Within(names)(fs)
    requires turn.Check? && Vouched(turn.offer) ==> turn.offer.version in names
    ensures Along(Within(names), fs, TurnOps(fs, turn, builtin))
  {
    match turn
    case Check(offer, passed, newestFirst, keep, _) =>
      if CheckOps(fs, offer, builtin, passed, newestFirst, keep) != [] {
        var version := offer.version;
        ApplyWithin(names, fs, version);
        AppliedTmp(fs, version);
        var g := ExecAll(fs, ApplyOps(fs, version));
        VerdictWithin(names, fs, g, version, passed, newestFirst, keep);
        AlongAppend(Within(names), fs, ApplyOps(fs, version), VerdictOps(fs, version, passed, newestFirst, keep));
      }
    case Recover(_) =>
      if WouldRollBack(fs) {
        var home := fs.record.previous.value;
        var settle := [Restart, WriteRecord(Record(RolledBack, fs.record.version, Some(home)))];
        AroundFlip(names, fs, [], home, settle);
        assert [] + FlipOps(fs, home) + settle == RollbackOps(fs, home, fs.record.version);
      } else {
        HarmlessAlong(names, fs, RecoverOps(fs));
      }
  }

  /** Downloaded, verified, and in need of no dependencies. */
  predicate Vouched(offer: Offer) {
    offer.Offer? && offer.version != "" && offer.downloaded && offer.verified && !offer.requiresDeps
  }

  lemma {:induction false} TurnsWithin(names: set<string>, fs: Fs, turns: seq<Turn>, builtin: string)
    requires Within(names)(fs)
    requires forall turn :: turn in turns && turn.Check? && Vouched(turn.offer) ==> turn.offer.version in names
    ensures Within(names)(Turns(fs, turns, builtin))
    decreases |turns|
  {
    if turns != [] {
      var ops := TurnOps(fs, turns[0], builtin);
      TurnWithin(names, fs, turns[0], builtin);
      AlongPrefix(Within(names), fs, ops, if turns[0].cut < |ops| then turns[0].cut else |ops|);
      assert ops[..|ops|] == ops;
      TurnsWithin(names, Taken(fs, turns[0], builtin), turns[1..], builtin);
    }
  }

  /** Wherever crashes and recoveries leave a unit, `current` names what it
      named at first, or the way back recorded then, or a release it was
      offered since with every check passed. */
  lemma OnlyVouchedFor(fs: Fs, turns: seq<Turn>, builtin: string)
    ensures var t := Turns(fs, turns, builtin);
      t.current.Some? ==>
        || t.current == fs.current
        || (Unfinished(fs.record) && t.current == fs.record.previous)
        || exists i :: 0 <= i < |turns| && turns[i].Check? && Vouched(turns[i].offer) &&
                       turns[i].offer.version == t.current.value
  {
    var offered := set turn | turn in turns && turn.Check? && Vouched(turn.offer) :: turn.offer.version;
    var names := offered
      + (if fs.current.Some? then {fs.current.value} else {})
      + (if Unfinished(fs.record) && fs.record.previous.Some? then {fs.record.previous.value} else {});
    forall turn | turn in turns && turn.Check? && Vouched(turn.offer) ensures turn.offer.version in offered {}
    TurnsWithin(names, fs, turns, builtin);
  }

  // ---- What a check that is not cut off comes to --------------------------------

  lemma {:induction false} PruneRemoves(fs: Fs, victims: seq<string>)
    ensures ExecAll(fs, PruneOps(victims)) == fs.(releases := fs.releases - (set d | d in victims))
    decreases |victims|
  {
    if victims == [] {
      assert fs.releases - (set d | d in victims) == fs.releases;
    } else {
      var d := victims[0];
      var ops := [BeginDelete(d), FinishDelete(d)];
      Two(fs, BeginDelete(d), FinishDelete(d));
      FoldAppend(Exec, fs, ops, PruneOps(victims[1..]));
      PruneRemoves(ExecAll(fs, ops), victims[1..]);
      assert (set v | v in victims) == {d} + (set v | v in victims[1..]);
      assert fs.releases[d := Broken] - {d} == fs.releases - {d};
      assert (fs.releases - {d}) - (set v | v in victims[1..]) == fs.releases - (set v | v in victims);
    }
  }

  /** The release directories with `version` unpacked. */
  function Unpacked(fs: Fs, version: string): map<string, Tree> {
    (fs.releases - {version + ".staging"})[version := Whole]
  }

  lemma UnpackResult(fs: Fs, version: string)
    ensures ExecAll(fs, UnpackOps(fs, version)) == fs.(releases := Unpacked(fs, version))
  {
    var st := Staging(version);
    StagingDiffers(version);
    var a, b, c, d := DeleteOps(fs, st), [MakeDir(st), FinishExtract(st)], DeleteOps(fs, version), [Rename(st, version), Compile(version)];
    FoldAppend(Exec, fs, a + b + c, d);
    FoldAppend(Exec, fs, a + b, c);
    FoldAppend(Exec, fs, a, b);
    DeletesOnly(fs, st);
    var f1 := ExecAll(fs, a);
    var f2 := ExecAll(f1, b);
    Two(f1, MakeDir(st), FinishExtract(st));
    assert f2.releases == (fs.releases - {st})[st := Whole];
    assert version in f2.releases <==> version in fs.releases;
    DeletesOnly(f2, version);
    var f3 := ExecAll(f2, c);
    assert f3.releases == f2.releases - {version};
    Two(f3, Rename(st, version), Compile(version));
    assert (f3.releases - {st})[version := Whole] == Unpacked(fs, version);
  }

  lemma ApplyResult(fs: Fs, version: string)
    ensures ExecAll(fs, ApplyOps(fs, version))
         == Fs(Unpacked(fs, version), Some(version), None, Record(Applying, version, fs.current))
  {
    var a, w := UnpackOps(fs, version), WriteRecord(Record(Applying, version, fs.current));
    UnpackResult(fs, version);
    FoldAppend(Exec, fs, a, [w]);
    var g := ExecAll(fs, a);
    FoldOne(Exec, g, w);
    var f2 := Exec(g, w);
    var u: seq<Op> := if fs.tmp.Some? then [UnlinkTmp] else [];
    if fs.tmp.Some? { FoldOne(Exec, f2, UnlinkTmp); }
    FoldAppend(Exec, f2, u, [LinkTmp(version), ReplaceCurrent]);
    Two(f2.(tmp := None), LinkTmp(version), ReplaceCurrent);
    FoldAppend(Exec, fs, a + [w], FlipOps(fs, version));
    FoldAppend(Exec, fs, a + [w] + FlipOps(fs, version), [Restart]);
    FoldOne(Exec, f2.(current := Some(version), tmp := None), Restart);
  }

  /** A release past the newest kept ones. */
  ghost predicate Surplus(newestFirst: seq<string>, keep: nat, d: string) {
    exists i :: 1 <= i < |newestFirst| && keep <= i && newestFirst[i] == d
  }

  /** A self-test that passed: the new release current, success recorded, and
      of the others gone exactly the surplus ones that did not just run. */
  lemma PassedEnds(fs: Fs, version: string, newestFirst: seq<string>, keep: nat)
    ensures var t := ExecAll(fs, CycleOps(fs, version, true, newestFirst, keep)); var all := Unpacked(fs, version);
      && t.current == Some(version) && t.tmp == None && t.record == Record(Success, version, None)
      && forall d :: if d in all && (d == version || fs.current == Some(d) || !Surplus(newestFirst, keep, d))
                     then d in t.releases && t.releases[d] == all[d] else d !in t.releases
  {
    var w, v := WriteRecord(Record(SelfTest, version, fs.current)), WriteRecord(Record(Success, version, None));
    var victims := Victims(newestFirst, keep, Protected(version, fs.current));
    var g := ExecAll(fs, ApplyOps(fs, version));
    ApplyResult(fs, version);
    FoldAppend(Exec, fs, ApplyOps(fs, version), VerdictOps(fs, version, true, newestFirst, keep));
    assert VerdictOps(fs, version, true, newestFirst, keep) == [w, v] + PruneOps(victims);
    FoldAppend(Exec, g, [w, v], PruneOps(victims));
    Two(g, w, v);
    PruneRemoves(Exec(Exec(g, w), v), victims);
    VictimsAre(version, fs.current, newestFirst, keep);
  }

  lemma VictimsAre(version: string, previous: Option<string>, newestFirst: seq<string>, keep: nat)
    ensures forall d :: d in Victims(newestFirst, keep, Protected(version, previous)) <==>
      d != version && previous != Some(d) && Surplus(newestFirst, keep, d)
  {
    forall d ensures d in Protected(version, previous) <==> d == version || previous == Some(d) {}
  }

  /** One that failed: the release that ran before current again, when there
      was one, nothing deleted, and the outcome recorded. */
  lemma FailedEnds(fs: Fs, version: string, newestFirst: seq<string>, keep: nat)
    ensures ExecAll(fs, CycleOps(fs, version, false, newestFirst, keep)) ==
      if fs.current.Some? then Fs(Unpacked(fs, version), fs.current, None, Record(RolledBack, version, fs.current))
      else Fs(Unpacked(fs, version), Some(version), None, Record(Failed, version, None))
  {
    var w := WriteRecord(Record(SelfTest, version, fs.current));
    var g := ExecAll(fs, ApplyOps(fs, version));
    ApplyResult(fs, version);
    FoldAppend(Exec, fs, ApplyOps(fs, version), VerdictOps(fs, version, false, newestFirst, keep));
    FoldOne(Exec, g, w);
    if fs.current.Some? {
      var rest := RollbackOps(fs.(tmp := None), fs.current.value, version);
      FoldAppend(Exec, g, [w], rest);
      assert rest == RollbackOps(Exec(g, w), fs.current.value, version);
      RollbackResult(Exec(g, w), fs.current.value, version);
    } else {
      var failed := WriteRecord(Record(Failed, version, None));
      Two(g, w, failed);
      assert [w] + [failed] == [w, failed];
    }
  }

  /** A recovery that is not cut off: a record of an unfinished update is settled,
      by going back when the new release is current and there is a way back. */
  lemma RecoveryEnds(fs: Fs)
    ensures ExecAll(fs, RecoverOps(fs)) ==
      if fs.record.NoRecord? || fs.record.phase in {Success, RolledBack, Failed} then fs
      else if fs.record.previous.Some? && fs.current == Some(fs.record.version) then
        Fs(fs.releases, fs.record.previous, None, Record(RolledBack, fs.record.version, fs.record.previous))
      else fs.(record := Record(Failed, fs.record.version, None))
  {
    if WouldRollBack(fs) {
      RollbackResult(fs, fs.record.previous.value, fs.record.version);
    } else if Unfinished(fs.record) {
      FoldOne(Exec, fs, WriteRecord(Record(Failed, fs.record.version, None)));
    }
  }

  // ---- What runs ------------------------------------------------------------------

  /** The release the services run: what `current` named when they were last
      restarted, `running` before. */
  function Running(running: Option<string>, fs: Fs, ops: seq<Op>): Option<string>
    decreases |ops|
  {
    if ops == [] then running
    else Running(if ops[0].Restart? then fs.current else running, Exec(fs, ops[0]), ops[1..])
  }

  lemma {:induction false} RunningAppend(running: Option<string>, fs: Fs, a: seq<Op>, b: seq<Op>)
    ensures Running(running, fs, a + b) == Running(Running(running, fs, a), ExecAll(fs, a), b)
    decreases |a|
  {
    if a == [] {
      assert a + b == b;
    } else {
      assert (a + b)[1..] == a[1..] + b;
      RunningAppend(if a[0].Restart? then fs.current else running, Exec(fs, a[0]), a[1..], b);
    }
  }

  lemma {:induction false} RunningOn(running: Option<string>, fs: Fs, ops: seq<Op>)
    requires forall op :: op in ops ==> !op.Restart?
    ensures Running(running, fs, ops) == running
    decreases |ops|
  {
    if ops != [] {
      assert ops[0] in ops;
      RunningOn(running, Exec(fs, ops[0]), ops[1..]);
    }
  }

  /** A restart, and then no other. */
  lemma RunningAfter(running: Option<string>, fs: Fs, a: seq<Op>, rest: seq<Op>)
    requires forall op :: op in rest ==> !op.Restart?
    ensures Running(running, fs, a + ([Restart] + rest)) == ExecAll(fs, a).current
  {
    var g := ExecAll(fs, a);
    RunningAppend(running, fs, a, [Restart] + rest);
    assert ([Restart] + rest)[1..] == rest;
    RunningOn(g.current, Exec(g, Restart), rest);
  }

  lemma {:induction false} PruneNoRestart(victims: seq<string>, op: Op)
    requires op in PruneOps(victims)
    ensures !op.Restart?
    decreases |victims|
  {
    if op !in [BeginDelete(victims[0]), FinishDelete(victims[0])] {
      PruneNoRestart(victims[1..], op);
    }
  }

  lemma RollbackRuns(running: Option<string>, fs: Fs, previous: string, version: string)
    ensures Running(running, fs, RollbackOps(fs, previous, version)) == Some(previous)
  {
    var w := WriteRecord(Record(RolledBack, version, Some(previous)));
    RunningAfter(running, fs, FlipOps(fs, previous), [w]);
    assert [Restart] + [w] == [Restart, w];
    var u: seq<Op> := if fs.tmp.Some? then [UnlinkTmp] else [];
    if fs.tmp.Some? { FoldOne(Exec, fs, UnlinkTmp); }
    FoldAppend(Exec, fs, u, [LinkTmp(previous), ReplaceCurrent]);
    Two(fs.(tmp := None), LinkTmp(previous), ReplaceCurrent);
  }

  /** A complete update leaves the services running the release `current`
      names, whether the self-test passed or not. */
  lemma RunsWhatIsCurrent(running: Option<string>, fs: Fs, version: string, passed: bool, newestFirst: seq<string>, keep: nat)
    ensures var ops := CycleOps(fs, version, passed, newestFirst, keep);
      Running(running, fs, ops) == ExecAll(fs, ops).current
  {
    var a, v := ApplyOps(fs, version), VerdictOps(fs, version, passed, newestFirst, keep);
    var g := ExecAll(fs, a);
    ApplyResult(fs, version);
    AppliedRuns(running, fs, version);
    RunningAppend(running, fs, a, v);
    if passed {
      PassedEnds(fs, version, newestFirst, keep);
      VerdictNoRestart(fs, version, newestFirst, keep);
      RunningOn(g.current, g, v);
    } else {
      FailedEnds(fs, version, newestFirst, keep);
      FailedRuns(fs, version, g, newestFirst, keep);
    }
  }

  lemma AppliedRuns(running: Option<string>, fs: Fs, version: string)
    ensures Running(running, fs, ApplyOps(fs, version)) == Some(version)
  {
    var a := UnpackOps(fs, version) + [WriteRecord(Record(Applying, version, fs.current))] + FlipOps(fs, version);
    RunningAfter(running, fs, a, []);
    assert [Restart] + [] == [Restart];
    assert ApplyOps(fs, version) == a + [Restart];
    FoldAppend(Exec, fs, a, [Restart]);
    FoldOne(Exec, ExecAll(fs, a), Restart);
    ApplyResult(fs, version);
  }

  lemma VerdictNoRestart(fs: Fs, version: string, newestFirst: seq<string>, keep: nat)
    ensures forall op :: op in VerdictOps(fs, version, true, newestFirst, keep) ==> !op.Restart?
  {
    var victims := Victims(newestFirst, keep, Protected(version, fs.current));
    forall op | op in PruneOps(victims) ensures !op.Restart? {
      PruneNoRestart(victims, op);
    }
  }

  lemma FailedRuns(fs: Fs, version: string, g: Fs, newestFirst: seq<string>, keep: nat)
    requires g.current == Some(version) && g.tmp == None
    ensures Running(g.current, g, VerdictOps(fs, version, false, newestFirst, keep))
         == if fs.current.Some? then fs.current else g.current
  {
    var w := WriteRecord(Record(SelfTest, version, fs.current));
    var h := Exec(g, w);
    FoldOne(Exec, g, w);
    RunningOn(g.current, g, [w]);
    if fs.current.Some? {
      var rest := RollbackOps(fs.(tmp := None), fs.current.value, version);
      assert rest == RollbackOps(h, fs.current.value, version);
      RunningAppend(g.current, g, [w], rest);
      RollbackRuns(g.current, h, fs.current.value, version);
    } else {
      var failed := [WriteRecord(Record(Failed, version, None))];
      RunningOn(g.current, g, [w] + failed);
    }
  }
}
