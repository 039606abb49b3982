/** Migrations cut off by crashes, as often as may be. */
module MigrationRuns {
  import opened Wrappers
  import opened Migration

  lemma {:induction false} ExecutedAppend(k: Connection, ss: seq<Statement>, ts: seq<Statement>)
    ensures AllExecuted(k, ss + ts) == AllExecuted(AllExecuted(k, ss), ts)
    decreases |ss|
  {
    if ss == [] {
      assert ss + ts == ts;
    } else {
      assert (ss + ts)[1..] == ss[1..] + ts;
      ExecutedAppend(Executed(k, ss[0]), ss[1..], ts);
    }
  }

  /** A file a crash may leave on the way from `d`. */
  ghost predicate OnTheWay(d: Db, e: Db) { e.Ok() && SameUpgrade(d, e) }

  lemma OnTheWayFrom(d: Db, e: Db, f: Db)
    requires OnTheWay(d, e) && OnTheWay(e, f)
    ensures OnTheWay(d, f)
  {
    SameUpgradeTransitive(d, e, f);
  }

  /** Cut off among the ALTERs, or just past them. */
  lemma {:induction false} AltersCut(first: Db, d: Db, cs: seq<Column>, k: nat)
    requires d.Ok() && k <= |Alters(first, cs)|
    requires forall i :: 0 <= i < |cs| ==> 2 <= Since(cs[i]) && (first.Has(cs[i]) <==> d.Has(cs[i]))
    requires Distinct(cs)
    ensures var e := AllExecuted(Connection(d, None), Alters(first, cs)[..k]);
      e.open.None? && OnTheWay(d, e.disk) && (k == |Alters(first, cs)| ==> e.disk == WithColumns(d, cs))
    decreases |cs|
  {
    if cs != [] {
      var rest := Alters(first, cs[1..]);
      if first.Has(cs[0]) {
        assert Alters(first, cs) == rest;
        AltersCut(first, d, cs[1..], k);
      } else if k > 0 {
        var next := Applied(d, AddColumn(cs[0]));
        ColumnOk(d, cs[0]);
        OneAlter(first, d, cs, k);
        AltersCut(first, next, cs[1..], k - 1);
        OnTheWayFrom(d, next, AllExecuted(Connection(next, None), rest[..k - 1]).disk);
      }
    }
  }

  lemma OneAlter(first: Db, d: Db, cs: seq<Column>, k: nat)
    requires cs != [] && !first.Has(cs[0]) && 0 < k <= |Alters(first, cs)|
    ensures AllExecuted(Connection(d, None), Alters(first, cs)[..k])
      == AllExecuted(Connection(Applied(d, AddColumn(cs[0])), None), Alters(first, cs[1..])[..k - 1])
  {
    var all := Alters(first, cs);
    assert all[..k][0] == AddColumn(cs[0]) && all[..k][1..] == Alters(first, cs[1..])[..k - 1];
  }

  /** Cut off in the transaction, the file is as before it; after the commit it
      is all done. */
  lemma RestCut(d: Db, b: nat, k: nat)
    requires k <= |Rest(b)|
    ensures var e := AllExecuted(Connection(d, None), Rest(b)[..k]);
      if k < |Rest(b)| then e.disk == d else e == Connection(Finished(d, b), None)
  {
    var cut := Rest(b)[..k];
    if b == 2 {
      assert cut == [Backfill, CreateIndex, Stamp(2), Commit][..k];
      Unroll(Connection(d, None), cut);
    } else {
      assert cut == [Stamp(b), Commit][..k];
      Unroll(Connection(d, None), cut);
    }
  }

  /** Up to four statements, one by one. */
  lemma Unroll(k: Connection, ss: seq<Statement>)
    requires |ss| <= 4
    ensures |ss| == 0 ==> AllExecuted(k, ss) == k
    ensures |ss| == 1 ==> AllExecuted(k, ss) == Executed(k, ss[0])
    ensures |ss| == 2 ==> AllExecuted(k, ss) == Executed(Executed(k, ss[0]), ss[1])
    ensures |ss| == 3 ==> AllExecuted(k, ss) == Executed(Executed(Executed(k, ss[0]), ss[1]), ss[2])
    ensures |ss| == 4 ==> AllExecuted(k, ss) == Executed(Executed(Executed(Executed(k, ss[0]), ss[1]), ss[2]), ss[3])
  {
    if |ss| > 0 {
      var k1 := Executed(k, ss[0]);
      assert AllExecuted(k, ss) == AllExecuted(k1, ss[1..]);
      if |ss| > 1 {
        var k2 := Executed(k1, ss[1]);
        assert AllExecuted(k1, ss[1..]) == AllExecuted(k2, ss[1..][1..]) && ss[1..][1..] == ss[2..];
        if |ss| > 2 {
          var k3 := Executed(k2, ss[2]);
          assert AllExecuted(k2, ss[2..]) == AllExecuted(k3, ss[2..][1..]) && ss[2..][1..] == ss[3..];
          if |ss| > 3 {
            assert AllExecuted(k3, ss[3..]) == AllExecuted(Executed(k3, ss[3]), ss[3..][1..]) && ss[3..][1..] == [];
          }
        }
      }
    }
  }

  /** Cut off anywhere in a block. */
  lemma BlockCut(d: Db, b: nat, k: nat)
    requires d.Ok() && b == d.Version() + 1 <= SCHEMA_VERSION && k <= |Block(d, b)|
    ensures var e := AllExecuted(Connection(d, None), Block(d, b)[..k]);
      OnTheWay(d, e.disk) && (k == |Block(d, b)| ==> e == Connection(Raised(d, b), None))
  {
    var alters := Alters(d, Added(b));
    forall c ensures c in Added(b) <==> Since(c) == b { AddedSince(b, c); }
    forall i | 0 <= i < |Added(b)| ensures 2 <= Since(Added(b)[i]) { assert Added(b)[i] in Added(b); }
    AddedDistinct(b);
    if k <= |alters| {
      assert Block(d, b)[..k] == alters[..k];
      AltersCut(d, d, Added(b), k);
    } else {
      assert Block(d, b)[..k] == alters + Rest(b)[..k - |alters|];
      assert alters[..|alters|] == alters;
      AltersCut(d, d, Added(b), |alters|);
      ExecutedAppend(Connection(d, None), alters, Rest(b)[..k - |alters|]);
      RestCut(WithColumns(d, Added(b)), b, k - |alters|);
      RaisedOk(d, b);
    }
  }

  /** Cut off anywhere in a migration: whatever is on disk then upgrades to the
      same; and not cut off, it is the upgrade. */
  lemma {:induction false} PlanCut(d: Db, k: nat)
    requires d.Ok() && k <= |Plan(d)|
    ensures var e := AllExecuted(Connection(d, None), Plan(d)[..k]);
      OnTheWay(d, e.disk) && (k == |Plan(d)| ==> e.open.None? && UpgradeOf(d, e.disk))
    decreases SCHEMA_VERSION - d.Version()
  {
    if d.Version() == SCHEMA_VERSION {
      UpgradeDone(d, d);
    } else {
      var b := d.Version() + 1;
      RaisedOk(d, b);
      var next := Raised(d, b);
      PlanStep(d, b, next);
      if k < |Block(d, b)| {
        assert Plan(d)[..k] == Block(d, b)[..k];
        BlockCut(d, b, k);
      } else {
        PlanCut(next, k - |Block(d, b)|);
        LaterCut(d, next, k - |Block(d, b)|);
        PastBlock(d, b, next, Plan(d), k);
      }
    }
  }

  /** Past the first block, the rest runs from the raised file. */
  lemma PastBlock(d: Db, b: nat, next: Db, plan: seq<Statement>, k: nat)
    requires d.Ok() && b == d.Version() + 1 <= SCHEMA_VERSION && next == Raised(d, b) && next.Ok()
    requires plan == Block(d, b) + Plan(next) && |Block(d, b)| <= k <= |plan|
    ensures AllExecuted(Connection(d, None), plan[..k]) == AllExecuted(Connection(next, None), Plan(next)[..k - |Block(d, b)|])
  {
    var block := Block(d, b);
    BlockCut(d, b, |block|);
    PastPrefix(Connection(d, None), block, Plan(next), Connection(next, None), plan, k);
  }

  lemma PastPrefix(from: Connection, first: seq<Statement>, rest: seq<Statement>, middle: Connection,
                   all: seq<Statement>, k: nat)
    requires AllExecuted(from, first[..|first|]) == middle && all == first + rest && |first| <= k <= |all|
    ensures AllExecuted(from, all[..k]) == AllExecuted(middle, rest[..k - |first|])
  {
    assert first[..|first|] == first;
    assert all[..k] == first + rest[..k - |first|];
    ExecutedAppend(from, first, rest[..k - |first|]);
  }

  lemma LaterCut(d: Db, next: Db, k: nat)
    requires d.Ok() && OnTheWay(d, next) && k <= |Plan(next)|
    requires var e := AllExecuted(Connection(next, None), Plan(next)[..k]);
      OnTheWay(next, e.disk) && (k == |Plan(next)| ==> UpgradeOf(next, e.disk))
    ensures var e := AllExecuted(Connection(next, None), Plan(next)[..k]);
      OnTheWay(d, e.disk) && (k == |Plan(next)| ==> UpgradeOf(d, e.disk))
  {
    var e := AllExecuted(Connection(next, None), Plan(next)[..k]).disk;
    OnTheWayFrom(d, next, e);
    if k == |Plan(next)| { UpgradeDone(d, e); }
  }

  /** Boots that crash after so many statements of the migration each. */
  function AfterCrashes(d: Db, cuts: seq<nat>): (e: Db)
    requires d.Ok()
    ensures e.Ok()
    decreases |cuts|
  {
    if cuts == [] then d
    else
      var k := if cuts[0] <= |Plan(d)| then cuts[0] else |Plan(d)|;
      PlanCut(d, k);
      AfterCrashes(AllExecuted(Connection(d, None), Plan(d)[..k]).disk, cuts[1..])
  }

  /** From any version, crashing between any two statements any number of times,
      a migration that then completes is the upgrade of the file there was at
      first: version 7 with every column, the same ids, every cell as it was,
      and from before version 2 the states the legacy flags told. */
  lemma {:induction false} MigratesFromAnywhere(d: Db, cuts: seq<nat>)
    requires d.Ok()
    ensures var e := AfterCrashes(d, cuts);
      OnTheWay(d, e) && UpgradeOf(d, AllExecuted(Connection(e, None), Plan(e)).disk)
    decreases |cuts|
  {
    if cuts == [] {
      PlanCut(d, |Plan(d)|);
      assert Plan(d)[..|Plan(d)|] == Plan(d);
    } else {
      var k := if cuts[0] <= |Plan(d)| then cuts[0] else |Plan(d)|;
      PlanCut(d, k);
      var next := AllExecuted(Connection(d, None), Plan(d)[..k]).disk;
      MigratesFromAnywhere(next, cuts[1..]);
      CrashedEarlier(d, next, AfterCrashes(next, cuts[1..]));
    }
  }

  lemma CrashedEarlier(d: Db, next: Db, e: Db)
    requires d.Ok() && OnTheWay(d, next) && OnTheWay(next, e)
    ensures OnTheWay(d, e) && UpgradeOf(d, AllExecuted(Connection(e, None), Plan(e)).disk)
  {
    OnTheWayFrom(d, next, e);
    PlanCut(e, |Plan(e)|);
    assert Plan(e)[..|Plan(e)|] == Plan(e);
    LaterCut(d, e, |Plan(e)|);
  }

  /** In particular a permanently failed row stays one, and an upload recorded
      only by the legacy flag is not repeated. */
  lemma StatesSurvive(d: Db, cuts: seq<nat>, id: nat)
    requires d.Ok() && id in d.rows
    ensures var e := AfterCrashes(d, cuts);
      StateSurvives(d, AllExecuted(Connection(e, None), Plan(e)).disk, id)
  {
    MigratesFromAnywhere(d, cuts);
    var e := AfterCrashes(d, cuts);
    UpgradeKeepsState(d, AllExecuted(Connection(e, None), Plan(e)).disk, id);
  }

  ghost predicate StateSurvives(d: Db, f: Db, id: nat)
    requires d.Ok() && id in d.rows
  {
    && id in f.rows && SyncState in f.rows[id]
    && (d.Version() < 2 ==>
          f.rows[id][SyncState] == if d.rows[id][SyncedFlag] == Number(1) then Text("synced") else Text("pending"))
    && (d.Version() >= 2 ==> SyncState in d.rows[id] && f.rows[id][SyncState] == d.rows[id][SyncState])
  }

  lemma UpgradeKeepsState(d: Db, f: Db, id: nat)
    requires d.Ok() && UpgradeOf(d, f) && id in d.rows
    ensures StateSurvives(d, f, id)
  {
    assert Since(SyncState) == 2 && f.Has(SyncState);
    if d.Version() >= 2 { assert d.Has(SyncState); }
  }

  /** Every other cell too: those that were there are as they were; of the new
      ones the attempts start at zero and the rest are empty. */
  lemma CellsSurvive(d: Db, cuts: seq<nat>, id: nat, c: Column)
    requires d.Ok() && id in d.rows && c != SyncState
    ensures var e := AfterCrashes(d, cuts);
      CellSurvives(d, AllExecuted(Connection(e, None), Plan(e)).disk, id, c)
  {
    MigratesFromAnywhere(d, cuts);
    var e := AfterCrashes(d, cuts);
    UpgradeKeepsCell(d, AllExecuted(Connection(e, None), Plan(e)).disk, id, c);
  }

  ghost predicate CellSurvives(d: Db, f: Db, id: nat, c: Column)
    requires d.Ok() && id in d.rows
  {
    && id in f.rows
    && (c in d.rows[id] ==> c in f.rows[id] && f.rows[id][c] == d.rows[id][c])
    && (c !in d.rows[id] && c in f.rows[id] ==> f.rows[id][c] == if c == SyncAttempts then Number(0) else Null)
    && (c !in d.rows[id] && !c.Original? && c != MacParams ==> c in f.rows[id])
    && MacParams in f.session
  }

  lemma UpgradeKeepsCell(d: Db, f: Db, id: nat, c: Column)
    requires d.Ok() && UpgradeOf(d, f) && id in d.rows && c != SyncState
    ensures CellSurvives(d, f, id, c)
  {
    assert d.rows[id].Keys == d.columns;
    assert f.rows[id].Keys == f.columns;
    UpgradeHas(d, f, c);
    if c in f.columns {
      assert f.rows[id][c] == CellAfter(d, id, c);
    }
  }

  lemma UpgradeHas(d: Db, f: Db, c: Column)
    requires d.Ok() && UpgradeOf(d, f)
    ensures c in d.columns ==> c in f.columns
    ensures !c.Original? && c != MacParams ==> c in f.columns
    ensures MacParams in f.session
  {
    assert f.Has(MacParams) <==> d.Has(MacParams) || 2 <= Since(MacParams);
    assert f.Has(c) <==> d.Has(c) || 2 <= Since(c);
    assert f.Has(SyncedFlag) <==> d.Has(SyncedFlag) || 2 <= Since(SyncedFlag);
  }
}
