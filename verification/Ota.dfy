/** The OTA update agent over a file system that keeps what was written when
    the power goes. Every change the agent makes is one `Op`; a crash, or an
    exception the agent swallows, leaves the effect of some prefix of them. */
module Ota {
  import opened Wrappers
  import opened Folding

  /** A release directory is whole, or somewhere inside an extraction or a
      recursive delete. The bundle of version `v` carries VERSION = `v`, so a
      directory's name is its version. */
  datatype Tree = Whole | Broken

  datatype Phase = Applying | SelfTest | Success | RolledBack | Failed

  datatype Record = NoRecord | Record(phase: Phase, version: string, previous: Option<string>)

  datatype Fs = Fs(releases: map<string, Tree>, current: Option<string>, tmp: Option<string>, record: Record)

  datatype Op =
    | MakeDir(dir: string)
    | FinishExtract(dir: string)
    | BeginDelete(dir: string)
    | FinishDelete(dir: string)
    | Rename(from: string, to: string)
    | Compile(dir: string)
    | UnlinkTmp
    | LinkTmp(target: string)
    | ReplaceCurrent
    | WriteRecord(record: Record)
    | Restart

  /** Making what is there already, or renaming onto it, fails and changes
      nothing. */
  function Exec(fs: Fs, op: Op): Fs {
    match op
    case MakeDir(d) => if d in fs.releases then fs else fs.(releases := fs.releases[d := Broken])
    case FinishExtract(d) => fs.(releases := fs.releases[d := Whole])
    case BeginDelete(d) => fs.(releases := fs.releases[d := Broken])
    case FinishDelete(d) => fs.(releases := fs.releases - {d})
    case Rename(from, to) =>
      if from in fs.releases && to !in fs.releases
      then fs.(releases := (fs.releases - {from})[to := fs.releases[from]]) else fs
    case Compile(_) => fs
    case UnlinkTmp => fs.(tmp := None)
    case LinkTmp(target) => if fs.tmp.Some? then fs else fs.(tmp := Some(target))
    case ReplaceCurrent => fs.(current := fs.tmp, tmp := None)
    case WriteRecord(r) => fs.(record := r)
    case Restart => fs
  }

  function ExecAll(fs: Fs, ops: seq<Op>): Fs { Fold(Exec, fs, ops) }

  // ---- What the agent does ----------------------------------------------------

  function Staging(version: string): string { version + ".staging" }

  function DeleteOps(fs: Fs, dir: string): seq<Op> {
    if dir in fs.releases then [BeginDelete(dir), FinishDelete(dir)] else []
  }

  function UnpackOps(fs: Fs, version: string): seq<Op> {
    DeleteOps(fs, Staging(version)) + [MakeDir(Staging(version)), FinishExtract(Staging(version))]
    + DeleteOps(fs, version) + [Rename(Staging(version), version), Compile(version)]
  }

  function FlipOps(fs: Fs, target: string): seq<Op> {
    (if fs.tmp.Some? then [UnlinkTmp] else []) + [LinkTmp(target), ReplaceCurrent]
  }

  function ApplyOps(fs: Fs, version: string): seq<Op> {
    UnpackOps(fs, version) + [WriteRecord(Record(Applying, version, fs.current))]
    + FlipOps(fs, version) + [Restart]
  }

  function RollbackOps(fs: Fs, previous: string, version: string): seq<Op> {
    FlipOps(fs, previous) + [Restart, WriteRecord(Record(RolledBack, version, Some(previous)))]
  }

  /** The directories pruned: past the `keep` newest, and past the newest in
      any case, never a protected one. */
  function Victims(newestFirst: seq<string>, keep: nat, protect: set<string>): (v: seq<string>)
    ensures forall d :: d in v <==> d !in protect && exists i :: 1 <= i < |newestFirst| && keep <= i && newestFirst[i] == d
  {
    var kept := if keep < 1 then 1 else keep;
    if |newestFirst| <= kept then []
    else
      assert forall d :: d in newestFirst[kept..] <==> exists i :: kept <= i < |newestFirst| && newestFirst[i] == d by {
        Beyond(newestFirst, kept);
      }
      Spared(newestFirst[kept..], protect)
  }

  lemma Beyond(dirs: seq<string>, kept: nat)
    requires kept <= |dirs|
    ensures forall d :: d in dirs[kept..] <==> exists i :: kept <= i < |dirs| && dirs[i] == d
  {
    forall d ensures d in dirs[kept..] <==> exists i :: kept <= i < |dirs| && dirs[i] == d {
      if i :| kept <= i < |dirs| && dirs[i] == d {
        assert dirs[kept..][i - kept] == d;
      }
    }
  }

  function Spared(dirs: seq<string>, protect: set<string>): (v: seq<string>)
    ensures forall d :: d in v <==> d in dirs && d !in protect
    decreases |dirs|
  {
    if dirs == [] then [] else (if dirs[0] in protect then [] else [dirs[0]]) + Spared(dirs[1..], protect)
  }

  function PruneOps(victims: seq<string>): seq<Op>
    decreases |victims|
  {
    if victims == [] then [] else [BeginDelete(victims[0]), FinishDelete(victims[0])] + PruneOps(victims[1..])
  }

  function Protected(version: string, previous: Option<string>): set<string> {
    {version} + if previous.Some? then {previous.value} else {}
  }

  /** What follows an apply, given the self-test's verdict. `fs` is the file
      system before the apply. */
  function VerdictOps(fs: Fs, version: string, passed: bool, newestFirst: seq<string>, keep: nat): seq<Op> {
    [WriteRecord(Record(SelfTest, version, fs.current))] +
    if passed then
      [WriteRecord(Record(Success, version, None))] + PruneOps(Victims(newestFirst, keep, Protected(version, fs.current)))
    else if fs.current.None? then [WriteRecord(Record(Failed, version, None))]
    else RollbackOps(fs.(tmp := None), fs.current.value, version)
  }

  function CycleOps(fs: Fs, version: string, passed: bool, newestFirst: seq<string>, keep: nat): seq<Op> {
    ApplyOps(fs, version) + VerdictOps(fs, version, passed, newestFirst, keep)
  }

  predicate Unfinished(r: Record) { r.Record? && (r.phase == Applying || r.phase == SelfTest) }

  /** Recovery would roll back: the record is unfinished, names a previous
      release, and the new one is the current one. */
  predicate WouldRollBack(fs: Fs) {
    Unfinished(fs.record) && fs.record.previous.Some? && fs.current == Some(fs.record.version)
  }

  function RecoverOps(fs: Fs): seq<Op> {
    if WouldRollBack(fs) then RollbackOps(fs, fs.record.previous.value, fs.record.version)
    else if Unfinished(fs.record) then [WriteRecord(Record(Failed, fs.record.version, None))]
    else []
  }

  // ---- What must never be lost ---------------------------------------------------

  ghost predicate WholeAt(fs: Fs, dir: string) { dir in fs.releases && fs.releases[dir] == Whole }

  /** `current` names a whole release, and so does the rollback target whenever
      recovery would use it. */
  ghost predicate Good(fs: Fs) {
    && (fs.current.Some? ==> WholeAt(fs, fs.current.value))
    && (WouldRollBack(fs) ==> WholeAt(fs, fs.record.previous.value) && fs.record.previous.value != fs.record.version)
  }

  /** Where recovery ends. */
  function Destination(fs: Fs): Option<string> {
    if WouldRollBack(fs) then fs.record.previous else fs.current
  }

  /** The directories `Good` depends on. */
  function Needed(fs: Fs): set<string> {
    (if fs.current.Some? then {fs.current.value} else {}) +
    (if WouldRollBack(fs) then {fs.record.previous.value} else {})
  }

  /** An update to `version` writes over nothing that is needed. */
  predicate SafeTarget(fs: Fs, version: string) {
    version !in Needed(fs) && Staging(version) !in Needed(fs)
  }

  /** The version the agent compares a target with: what `current` carries, or
      the version built into the agent when there is no release. */
  function Installed(fs: Fs, builtin: string): string {
    if fs.current.Some? then fs.current.value else builtin
  }

  // ---- The agent ------------------------------------------------------------------

  /** One look of the self-test: is the service active, is there a fresh reading
      or liveness beat, and what the clock says afterwards. */
  datatype Poll = Poll(active: bool, beating: bool, clock: int) {
    predicate Healthy() { active && beating }
  }

  /** What the server offers, and how downloading and verifying it went. */
  datatype Offer = NoOffer | Offer(version: string, downloaded: bool, verified: bool, requiresDeps: bool)

  datatype Outcome = Idle | Refused | Updated | Reverted | Stuck

  /** Some look is healthy, and the deadline had not passed before it. */
  ghost predicate PassesSelfTest(polls: seq<Poll>, deadline: int) {
    exists k :: 0 <= k < |polls| && polls[k].Healthy() && (forall j :: 0 <= j < k ==> polls[j].clock < deadline)
  }

  /** What one check does: an update, or nothing. */
  function CheckOps(fs: Fs, offer: Offer, builtin: string, passed: bool, newestFirst: seq<string>, keep: nat): seq<Op> {
    if offer.NoOffer? || offer.version == "" || offer.version == Installed(fs, builtin) then []
    else if !offer.downloaded || !offer.verified || offer.requiresDeps then []
    else CycleOps(fs, offer.version, passed, newestFirst, keep)
  }

  class Agent {
    var releases: map<string, Tree>
    var current: Option<string>
    var tmp: Option<string>
    var record: Record
    ghost var trace: seq<Op>

    ghost function State(): Fs
      reads this
    {
      Fs(releases, current, tmp, record)
    }

    /** The operations since `before` are exactly `ops`. */
    twostate predicate Did(ops: seq<Op>)
      reads this
    {
      trace == old(trace) + ops && State() == ExecAll(old(State()), ops)
    }

    method Do(op: Op)
      modifies this
      ensures trace == old(trace) + [op] && State() == Exec(old(State()), op)
    {
      match op {
        case MakeDir(d) =>
          if d !in releases { releases := releases[d := Broken]; }
        case FinishExtract(d) => releases := releases[d := Whole];
        case BeginDelete(d) => releases := releases[d := Broken];
        case FinishDelete(d) => releases := releases - {d};
        case Rename(from, to) =>
          if from in releases && to !in releases { releases := (releases - {from})[to := releases[from]]; }
        case Compile(_) =>
        case UnlinkTmp => tmp := None;
        case LinkTmp(target) =>
          if tmp.None? { tmp := Some(target); }
        case ReplaceCurrent => current, tmp := tmp, None;
        case WriteRecord(r) => record := r;
        case Restart =>
      }
      trace := trace + [op];
    }

    method RemoveTree(dir: string)
      modifies this
      ensures Did(DeleteOps(old(State()), dir))
    {
      if dir in releases {
        Do(BeginDelete(dir));
        Do(FinishDelete(dir));
        Two(old(State()), BeginDelete(dir), FinishDelete(dir));
      }
    }

    method FlipCurrent(target: string)
      modifies this
      ensures Did(FlipOps(old(State()), target))
    {
      ghost var first: seq<Op> := [];
      if tmp.Some? {
        Do(UnlinkTmp);
        first := [UnlinkTmp];
        FoldOne(Exec, old(State()), UnlinkTmp);
      }
      Do(LinkTmp(target));
      Do(ReplaceCurrent);
      Two(ExecAll(old(State()), first), LinkTmp(target), ReplaceCurrent);
      FoldAppend(Exec, old(State()), first, [LinkTmp(target), ReplaceCurrent]);
    }

    /** Extract, rename into place, compile. */
    method Unpack(version: string)
      modifies this
      ensures Did(UnpackOps(old(State()), version))
    {
      ghost var fs := State();
      var staging := Staging(version);
      ghost var a, b := DeleteOps(fs, staging), [MakeDir(staging), FinishExtract(staging)];
      ghost var c, d := DeleteOps(fs, version), [Rename(staging, version), Compile(version)];
      RemoveTree(staging);
      ghost var f1 := State();
      Do(MakeDir(staging));
      Do(FinishExtract(staging));
      Two(f1, MakeDir(staging), FinishExtract(staging));
      ghost var f2 := State();
      assert version in f2.releases <==> version in fs.releases by {
        assert |staging| == |version| + 8;
        DeletesOnly(fs, staging);
      }
      RemoveTree(version);
      ghost var f3 := State();
      Do(Rename(staging, version));
      Do(Compile(version));
      Two(f3, Rename(staging, version), Compile(version));
      FoldAppend(Exec, fs, a, b);
      FoldAppend(Exec, fs, a + b, c);
      FoldAppend(Exec, fs, a + b + c, d);
      assert trace == old(trace) + (a + b + c + d);
    }

    method Apply(version: string) returns (previous: Option<string>)
      modifies this
      ensures Did(ApplyOps(old(State()), version))
      ensures previous == old(current)
    {
      ghost var fs := State();
      ghost var a := UnpackOps(fs, version);
      Unpack(version);
      ghost var f1 := State();
      UnpackKeepsLinks(fs, version);
      previous := current;
      var w := WriteRecord(Record(Applying, version, previous));
      Do(w);
      ghost var f2 := State();
      FoldOne(Exec, f1, w);
      FoldAppend(Exec, fs, a, [w]);
      FlipCurrent(version);
      ghost var c := FlipOps(fs, version);
      assert FlipOps(f2, version) == c;
      FoldAppend(Exec, fs, a + [w], c);
      ghost var f3 := State();
      Do(Restart);
      FoldOne(Exec, f3, Restart);
      FoldAppend(Exec, fs, a + [w] + c, [Restart]);
      assert trace == old(trace) + (a + [w] + c + [Restart]);
    }

    method Rollback(previous: string, version: string)
      modifies this
      ensures Did(RollbackOps(old(State()), previous, version))
    {
      ghost var fs := State();
      FlipCurrent(previous);
      ghost var f1 := State();
      var w := WriteRecord(Record(RolledBack, version, Some(previous)));
      Do(Restart);
      Do(w);
      Two(f1, Restart, w);
      FoldAppend(Exec, fs, FlipOps(fs, previous), [Restart, w]);
      assert trace == old(trace) + (FlipOps(fs, previous) + [Restart, w]);
    }

    method RecoverIncompleteApply() returns (r: Outcome)
      modifies this
      ensures Did(RecoverOps(old(State())))
      ensures r == if WouldRollBack(old(State())) then Reverted
                   else if Unfinished(old(record)) then Stuck else Idle
    {
      if record.NoRecord? || (record.phase != Applying && record.phase != SelfTest) {
        return Idle;
      }
      var version, previous := record.version, record.previous;
      if previous.Some? && current.Some? && current.value == version {
        Rollback(previous.value, version);
        return Reverted;
      }
      var w := WriteRecord(Record(Failed, version, None));
      FoldOne(Exec, State(), w);
      Do(w);
      r := Stuck;
    }

    /** `newestFirst` lists the release directories, newest first. */
    method Prune(newestFirst: seq<string>, keep: nat, protect: set<string>)
      modifies this
      ensures Did(PruneOps(Victims(newestFirst, keep, protect)))
    {
      var victims := Victims(newestFirst, keep, protect);
      ghost var fs := State();
      for i := 0 to |victims|
        invariant trace == old(trace) + PruneOps(victims[..i]) && State() == ExecAll(fs, PruneOps(victims[..i]))
      {
        var d := victims[i];
        ghost var f1 := State();
        Do(BeginDelete(d));
        Do(FinishDelete(d));
        Two(f1, BeginDelete(d), FinishDelete(d));
        assert victims[..i + 1] == victims[..i] + [d];
        PruneOpsAppend(victims[..i], d);
        FoldAppend(Exec, fs, PruneOps(victims[..i]), [BeginDelete(d), FinishDelete(d)]);
      }
      assert victims[..|victims|] == victims;
    }

    /** Polls until the first healthy look, or the first one after which the
        deadline has passed. */
    method SelfTestLoop(polls: seq<Poll>, deadline: int) returns (ok: bool)
      requires exists k :: 0 <= k < |polls| && polls[k].clock >= deadline
      ensures ok <==> exists k :: 0 <= k < |polls| && polls[k].active && polls[k].beating &&
                                  forall j :: 0 <= j < k ==> polls[j].clock < deadline
      ensures ok <==> PassesSelfTest(polls, deadline)
    {
      ghost var last :| 0 <= last < |polls| && polls[last].clock >= deadline;
      var i := 0;
      while true
        invariant 0 <= i <= last
        invariant forall j :: 0 <= j < i ==> !polls[j].Healthy() && polls[j].clock < deadline
        decreases |polls| - i
      {
        if polls[i].active {
          if polls[i].beating {
            return true;
          }
        }
        if polls[i].clock >= deadline {
          return false;
        }
        i := i + 1;
      }
    }

    /** Record success, then prune. */
    method Accept(version: string, previous: Option<string>, newestFirst: seq<string>, keep: nat)
      modifies this
      ensures Did([WriteRecord(Record(Success, version, None))]
                  + PruneOps(Victims(newestFirst, keep, Protected(version, previous))))
    {
      ghost var h, t := State(), trace;
      var w := WriteRecord(Record(Success, version, None));
      Do(w);
      FoldOne(Exec, h, w);
      ghost var mid, tm := State(), trace;
      var protect := {version} + if previous.Some? then {previous.value} else {};
      Prune(newestFirst, keep, protect);
      Stretches(h, mid, State(), t, tm, trace, [w], PruneOps(Victims(newestFirst, keep, protect)));
    }

    /** Put the previous release back, or record that there is none. */
    method Reject(version: string, previous: Option<string>)
      modifies this
      ensures Did(if previous.None? then [WriteRecord(Record(Failed, version, None))]
                  else RollbackOps(old(State()), previous.value, version))
    {
      if previous.None? {
        var w := WriteRecord(Record(Failed, version, None));
        FoldOne(Exec, State(), w);
        Do(w);
      } else {
        Rollback(previous.value, version);
      }
    }

    /** What follows an apply: record the self-test, then keep or put back. */
    method Conclude(version: string, previous: Option<string>, ok: bool, newestFirst: seq<string>, keep: nat,
                    ghost fs: Fs) returns (r: Outcome)
      requires tmp == None && previous == fs.current
      modifies this
      ensures Did(VerdictOps(fs, version, ok, newestFirst, keep))
      ensures r == if ok then Updated else if previous.None? then Stuck else Reverted
    {
      ghost var g, t := State(), trace;
      var w := WriteRecord(Record(SelfTest, version, previous));
      Do(w);
      FoldOne(Exec, g, w);
      ghost var mid, tm := State(), trace;
      if ok {
        Accept(version, previous, newestFirst, keep);
        r := Updated;
      } else {
        Reject(version, previous);
        r := if previous.None? then Stuck else Reverted;
      }
      ghost var rest := VerdictOps(fs, version, ok, newestFirst, keep)[1..];
      assert VerdictOps(fs, version, ok, newestFirst, keep) == [w] + rest;
      Stretches(g, mid, State(), t, tm, trace, [w], rest);
    }

    /** Apply a verified bundle, test it, and keep it or put the old one back. */
    method Update(version: string, polls: seq<Poll>, deadline: int, newestFirst: seq<string>, keep: nat)
      returns (r: Outcome)
      requires exists k :: 0 <= k < |polls| && polls[k].clock >= deadline
      modifies this
      ensures var passed := PassesSelfTest(polls, deadline);
        Did(CycleOps(old(State()), version, passed, newestFirst, keep)) &&
        r == if passed then Updated else if old(current).None? then Stuck else Reverted
    {
      ghost var fs, t := State(), trace;
      var previous := Apply(version);
      AppliedTmp(fs, version);
      ghost var mid, tm := State(), trace;
      var ok := SelfTestLoop(polls, deadline);
      r := Conclude(version, previous, ok, newestFirst, keep, fs);
      Stretches(fs, mid, State(), t, tm, trace, ApplyOps(fs, version), VerdictOps(fs, version, ok, newestFirst, keep));
    }

    /** One poll, download, verify, apply and self-test cycle. */
    method CheckAndApply(offer: Offer, builtin: string, polls: seq<Poll>, deadline: int,
                         newestFirst: seq<string>, keep: nat) returns (r: Outcome)
      requires exists k :: 0 <= k < |polls| && polls[k].clock >= deadline
      modifies this
      ensures Did(CheckOps(old(State()), offer, builtin, PassesSelfTest(polls, deadline), newestFirst, keep))
      ensures offer.NoOffer? || offer.version == "" || old(current) == Some(offer.version) ||
              (old(current).None? && offer.version == builtin) ==>
        trace == old(trace) && State() == old(State()) && r == Idle
      ensures offer.Offer? && (!offer.downloaded || !offer.verified || offer.requiresDeps) ==>
        trace == old(trace) && State() == old(State()) && (r == Idle || r == Refused)
      ensures offer.Offer? && offer.version != "" && old(current) != Some(offer.version) &&
              (old(current).Some? || offer.version != builtin) ==>
        if !offer.downloaded || !offer.verified || offer.requiresDeps then r == Refused
        else
          var passed := PassesSelfTest(polls, deadline);
          Did(CycleOps(old(State()), offer.version, passed, newestFirst, keep)) &&
          r == if passed then Updated else if old(current).None? then Stuck else Reverted
    {
      assert trace + [] == trace;
      if offer.NoOffer? {
        return Idle;
      }
      var version := offer.version;
      if version == "" || version == (if current.Some? then current.value else builtin) {
        return Idle;
      }
      if !offer.downloaded || !offer.verified || offer.requiresDeps {
        return Refused;
      }
      r := Update(version, polls, deadline, newestFirst, keep);
    }
  }

  lemma DeletesOnly(fs: Fs, dir: string)
    ensures ExecAll(fs, DeleteOps(fs, dir)) == fs.(releases := fs.releases - {dir})
  {
    if dir in fs.releases {
      Two(fs, BeginDelete(dir), FinishDelete(dir));
      assert fs.releases[dir := Broken] - {dir} == fs.releases - {dir};
    } else {
      assert fs.releases - {dir} == fs.releases;
    }
  }

  predicate DirOp(op: Op) {
    op.MakeDir? || op.FinishExtract? || op.BeginDelete? || op.FinishDelete? || op.Rename? || op.Compile?
  }

  /** Operations on directories leave the links and the record alone. */
  lemma {:induction false} DirOpsKeepLinks(fs: Fs, ops: seq<Op>)
    requires forall op :: op in ops ==> DirOp(op)
    ensures var g := ExecAll(fs, ops);
      g.current == fs.current && g.tmp == fs.tmp && g.record == fs.record
    decreases |ops|
  {
    if ops != [] {
      assert DirOp(ops[0]);
      DirOpsKeepLinks(Exec(fs, ops[0]), ops[1..]);
    }
  }

  lemma UnpackKeepsLinks(fs: Fs, version: string)
    ensures var g := ExecAll(fs, UnpackOps(fs, version));
      g.current == fs.current && g.tmp == fs.tmp && g.record == fs.record
  {
    DirOpsKeepLinks(fs, UnpackOps(fs, version));
  }

  lemma AppliedTmp(fs: Fs, version: string)
    ensures ExecAll(fs, ApplyOps(fs, version)).tmp == None
  {
    var a := UnpackOps(fs, version) + [WriteRecord(Record(Applying, version, fs.current))]
           + (if fs.tmp.Some? then [UnlinkTmp] else []) + [LinkTmp(version)];
    var g := ExecAll(fs, a);
    assert ApplyOps(fs, version) == a + [ReplaceCurrent, Restart];
    FoldAppend(Exec, fs, a, [ReplaceCurrent, Restart]);
    Two(g, ReplaceCurrent, Restart);
  }

  lemma {:induction false} PruneOpsAppend(victims: seq<string>, d: string)
    ensures PruneOps(victims + [d]) == PruneOps(victims) + [BeginDelete(d), FinishDelete(d)]
    decreases |victims|
  {
    if victims == [] {
      assert [d][1..] == [];
    } else {
      assert (victims + [d])[1..] == victims[1..] + [d];
      PruneOpsAppend(victims[1..], d);
    }
  }

  /** Two stretches of operations are one. */
  lemma Stretches(fs: Fs, mid: Fs, end: Fs, t0: seq<Op>, t1: seq<Op>, t2: seq<Op>, a: seq<Op>, b: seq<Op>)
    requires mid == ExecAll(fs, a) && end == ExecAll(mid, b) && t1 == t0 + a && t2 == t1 + b
    ensures end == ExecAll(fs, a + b) && t2 == t0 + (a + b)
  {
    FoldAppend(Exec, fs, a, b);
  }

  lemma Two(fs: Fs, a: Op, b: Op)
    ensures ExecAll(fs, [a, b]) == Exec(Exec(fs, a), b)
  {
    assert [a, b] == [a] + [b];
    FoldAppend(Exec, fs, [a], [b]);
    FoldOne(Exec, fs, a);
    FoldOne(Exec, Exec(fs, a), b);
  }
}
