/** Upgrading the database file in place, statement by statement, with a crash
    allowed between any two. */
module Migration {
  import opened Wrappers

  const SCHEMA_VERSION := 7

  /** `Original` are the columns every version has, besides the legacy flag. */
  datatype Column =
    | Original(name: string) | SyncedFlag
    | SyncState | SyncAttempts | ChlorineMgl | ConductivityUscm | SalinityPpt | SensorStatus
    | MacParams | FlowTotalGal | FlowRateGpm | ClockSource

  datatype Cell = Null | Number(n: int) | Text(s: string)

  type Cells = map<Column, Cell>

  /** The columns schema version `b` brought; MacParams goes with the session. */
  function Added(b: nat): seq<Column> { if 2 <= b <= SCHEMA_VERSION then ADDED[b - 2] else [] }

  const ADDED: seq<seq<Column>> :=
    [[SyncState, SyncAttempts], [ChlorineMgl, ConductivityUscm, SalinityPpt], [SensorStatus], [MacParams],
     [FlowTotalGal, FlowRateGpm], [ClockSource]]

  /** The version that brought a column; 0 for the first ones. */
  function Since(c: Column): nat {
    match c
    case Original(_) => 0
    case SyncedFlag => 0
    case SyncState => 2
    case SyncAttempts => 2
    case ChlorineMgl => 3
    case ConductivityUscm => 3
    case SalinityPpt => 3
    case SensorStatus => 4
    case MacParams => 5
    case FlowTotalGal => 6
    case FlowRateGpm => 6
    case ClockSource => 7
  }

  lemma AddedSince(b: nat, c: Column)
    requires 2 <= b <= SCHEMA_VERSION
    ensures c in Added(b) <==> Since(c) == b
  {}

  function Default(c: Column): Cell {
    match c
    case SyncState => Text("pending")
    case SyncAttempts => Number(0)
    case _ => Null
  }

  /** The file: the readings table, the session row, the version `meta` records
      (None when it has none), and whether sync_state is indexed. */
  datatype Db = Db(columns: set<Column>, rows: map<nat, Cells>, session: Cells, recorded: Option<nat>, indexed: bool) {
    function Version(): nat { if recorded.None? then 1 else recorded.value }

    predicate Has(c: Column) { if c == MacParams then c in session else c in columns }

    /** A database some version of the program may have left: at a version from
        1 to 7 with what that version needs, and any later columns besides. */
    ghost predicate Ok() {
      && 1 <= Version() <= SCHEMA_VERSION
      && SyncedFlag in columns && MacParams !in columns
      && (forall id :: id in rows ==> rows[id].Keys == columns)
      && (forall c: Column :: 2 <= Since(c) <= Version() ==> Has(c))
      && (2 <= Version() ==> indexed)
    }
  }

  // ---- What an upgrade is for -----------------------------------------------------

  /** The state a row had before there were states. */
  function LegacyState(r: Cells): Cell { if SyncedFlag in r && r[SyncedFlag] == Number(1) then Text("synced") else Text("pending") }

  /** A row's cell in an upgraded file: what it was, a default in a new column,
      and from before version 2 the state its legacy flag tells. */
  function CellAfter(d: Db, id: nat, c: Column): Cell
    requires id in d.rows
  {
    if c == SyncState && d.Version() < 2 then LegacyState(d.rows[id])
    else if c in d.rows[id] then d.rows[id][c]
    else Default(c)
  }

  function SessionAfter(d: Db, c: Column): Cell { if c in d.session then d.session[c] else Null }

  /** Two files an upgrade makes the same of. */
  ghost predicate SameUpgrade(d: Db, e: Db) {
    && d.rows.Keys == e.rows.Keys
    && (forall id, c :: id in d.rows ==> CellAfter(d, id, c) == CellAfter(e, id, c))
    && (forall c :: SessionAfter(d, c) == SessionAfter(e, c))
    && (forall c: Column :: Since(c) < 2 ==> (d.Has(c) <==> e.Has(c)))
  }

  /** `f` is `d` upgraded: version 7 with every column, the same row ids, every
      cell as it should be, and no column lost or made up. */
  ghost predicate UpgradeOf(d: Db, f: Db) {
    && f.Ok() && f.recorded == Some(SCHEMA_VERSION) && f.rows.Keys == d.rows.Keys
    && (forall c: Column :: f.Has(c) <==> d.Has(c) || 2 <= Since(c))
    && (forall id, c :: id in f.rows && c in f.columns ==> c in f.rows[id] && f.rows[id][c] == CellAfter(d, id, c))
    && (forall c :: c in f.session ==> f.session[c] == SessionAfter(d, c))
  }

  // ---- Statements -----------------------------------------------------------------------

  datatype Statement = AddColumn(c: Column) | Backfill | CreateIndex | Stamp(version: nat) | Commit

  function Applied(d: Db, s: Statement): Db {
    match s
    case AddColumn(c) =>
      if c == MacParams then d.(session := d.session[c := Null])
      else d.(columns := d.columns + {c}, rows := map id | id in d.rows :: d.rows[id][c := Default(c)])
    case Backfill => d.(rows := map id | id in d.rows :: d.rows[id][SyncState := LegacyState(d.rows[id])])
    case CreateIndex => d.(indexed := true)
    case Stamp(v) => d.(recorded := Some(v))
    case Commit => d
  }

  /** The connection: the file, and what an open transaction has made of it. */
  datatype Connection = Connection(disk: Db, open: Option<Db>) {
    function View(): Db { if open.Some? then open.value else disk }
  }

  /** UPDATE and INSERT open a transaction when none is open; ALTER TABLE and
      CREATE INDEX do not, and outside one take effect at once. */
  function Executed(k: Connection, s: Statement): Connection {
    if s.Commit? then Connection(k.View(), None)
    else if s.Backfill? || s.Stamp? || k.open.Some? then k.(open := Some(Applied(k.View(), s)))
    else k.(disk := Applied(k.disk, s))
  }

  function AllExecuted(k: Connection, ss: seq<Statement>): Connection
    decreases |ss|
  {
    if ss == [] then k else AllExecuted(Executed(k, ss[0]), ss[1..])
  }

  // ---- The migration ------------------------------------------------------------------------

  /** The ALTERs for the columns that are missing, in order. */
  function Alters(d: Db, cs: seq<Column>): seq<Statement>
    decreases |cs|
  {
    if cs == [] then [] else (if d.Has(cs[0]) then [] else [AddColumn(cs[0])]) + Alters(d, cs[1..])
  }

  function Rest(b: nat): seq<Statement> {
    (if b == 2 then [Backfill, CreateIndex] else []) + [Stamp(b), Commit]
  }

  /** The block that brings version `b`. */
  function Block(d: Db, b: nat): seq<Statement> { Alters(d, Added(b)) + Rest(b) }

  /** The file after the first `k` statements of a block, by its own description:
      columns appear one by one, and all the rest at the commit. */
  function WithColumns(d: Db, cs: seq<Column>): Db
    decreases |cs|
  {
    if cs == [] then d else WithColumns(if d.Has(cs[0]) then d else Applied(d, AddColumn(cs[0])), cs[1..])
  }

  /** A block's transaction, committed. */
  function Finished(w: Db, b: nat): Db {
    var f := if b == 2 then w.(rows := map id | id in w.rows :: w.rows[id][SyncState := LegacyState(w.rows[id])],
                               indexed := true) else w;
    f.(recorded := Some(b))
  }

  /** Upgrading from version `b - 1` to `b`, without crashes. */
  function Raised(d: Db, b: nat): Db { Finished(WithColumns(d, Added(b)), b) }

  /** A connection as the statements leave it. */
  class Database {
    var disk: Db
    var open: Option<Db>
    ghost var trace: seq<Statement>

    ghost function Now(): Connection
      reads this
    {
      Connection(disk, open)
    }

    constructor (file: Db)
      ensures Now() == Connection(file, None) && trace == []
    {
      disk, open, trace := file, None, [];
    }

    /** SQLite refuses to add a column that is there. */
    method Execute(s: Statement)
      requires s.AddColumn? ==> !Now().View().Has(s.c)
      modifies this
      ensures Now() == Executed(old(Now()), s) && trace == old(trace) + [s]
    {
      var view := if open.Some? then open.value else disk;
      if s.Commit? {
        disk, open := view, None;
      } else if s.Backfill? || s.Stamp? || open.Some? {
        open := Some(Applied(view, s));
      } else {
        disk := Applied(disk, s);
      }
      trace := trace + [s];
    }

    /** The ALTERs of a block: which columns are missing is read once, before. */
    method AddMissing(missing: seq<Column>)
      requires open.None? && Distinct(missing)
      modifies this
      ensures open.None? && disk == WithColumns(old(disk), missing) && trace == old(trace) + Alters(old(disk), missing)
    {
      ghost var was, first := trace, disk;
      var columns := disk;
      for i := 0 to |missing|
        invariant open.None? && WithColumns(disk, missing[i..]) == WithColumns(first, missing)
        invariant trace + Alters(columns, missing[i..]) == was + Alters(first, missing)
        invariant forall j :: i <= j < |missing| ==> (disk.Has(missing[j]) <==> first.Has(missing[j]))
        modifies this
      {
        ghost var d, t := disk, trace;
        StepColumns(d, columns, missing, i);
        if !columns.Has(missing[i]) {
          Execute(AddColumn(missing[i]));
          Regroup(t, [AddColumn(missing[i])], Alters(columns, missing[i + 1..]));
        }
        OthersAsBefore(d, disk, missing, i);
      }
      assert missing[|missing|..] == [];
    }

    /** The transaction that ends a block. */
    method Finish(b: nat)
      requires open.None?
      modifies this
      ensures open.None? && disk == Finished(old(disk), b) && trace == old(trace) + Rest(b)
    {
      if b == 2 {
        Execute(Backfill);
        Execute(CreateIndex);
      }
      Execute(Stamp(b));
      Execute(Commit);
    }

    /** The block that brings version `b`. */
    method UpgradeTo(b: nat)
      requires open.None?
      modifies this
      ensures open.None? && disk == Raised(old(disk), b) && trace == old(trace) + Block(old(disk), b)
    {
      AddedDistinct(b);
      AddMissing(Added(b));
      Finish(b);
    }

    /** The next block: it goes on to the same upgrade. */
    method UpgradeNext(b: nat)
      requires open.None? && disk.Ok() && b == disk.Version() + 1 <= SCHEMA_VERSION
      modifies this
      ensures open.None? && disk.Ok() && disk.Version() == b && SameUpgrade(old(disk), disk)
      ensures disk == Raised(old(disk), b) && trace == old(trace) + Block(old(disk), b)
    {
      RaisedOk(disk, b);
      UpgradeTo(b);
    }

    /** Every block the file is not past yet, each reading the file anew. */
    method Migrate()
      requires open.None? && disk.Ok()
      modifies this
      ensures open.None? && UpgradeOf(old(disk), disk) && trace == old(trace) + Plan(old(disk))
    {
      ghost var first, was := disk, trace;
      var current := disk.Version();
      while current < SCHEMA_VERSION
        invariant open.None? && disk.Ok() && current == disk.Version() <= SCHEMA_VERSION
        invariant SameUpgrade(first, disk) && trace + Plan(disk) == was + Plan(first)
      {
        ghost var before, t := disk, trace;
        UpgradeNext(current + 1);
        OneBlockOn(first, before, disk, current + 1, t);
        current := current + 1;
      }
      UpgradeDone(first, disk);
    }
  }

  lemma AddedDistinct(b: nat)
    ensures Distinct(Added(b))
  {}

  lemma OthersAsBefore(d: Db, e: Db, cs: seq<Column>, i: nat)
    requires i < |cs| && (e == d || e == Applied(d, AddColumn(cs[i]))) && Distinct(cs)
    ensures forall j :: i < j < |cs| ==> (e.Has(cs[j]) <==> d.Has(cs[j]))
  {}

  lemma StepColumns(d: Db, first: Db, cs: seq<Column>, i: nat)
    requires i < |cs| && (d.Has(cs[i]) <==> first.Has(cs[i]))
    ensures Alters(first, cs[i..]) == (if first.Has(cs[i]) then [] else [AddColumn(cs[i])]) + Alters(first, cs[i + 1..])
    ensures WithColumns(d, cs[i..]) == WithColumns(if first.Has(cs[i]) then d else Applied(d, AddColumn(cs[i])), cs[i + 1..])
  {
    assert cs[i..][1..] == cs[i + 1..];
  }

  /** All statements of a migration that is not cut off. */
  function Plan(d: Db): seq<Statement>
    decreases SCHEMA_VERSION - d.Version()
  {
    if d.Version() >= SCHEMA_VERSION then []
    else Block(d, d.Version() + 1) + Plan(Raised(d, d.Version() + 1))
  }

  lemma PlanStep(d: Db, b: nat, next: Db)
    requires b == d.Version() + 1 <= SCHEMA_VERSION && next == Raised(d, b) && next.Version() == b
    ensures Plan(d) == Block(d, b) + Plan(next)
  {}

  lemma OneBlockOn(first: Db, d: Db, next: Db, b: nat, done: seq<Statement>)
    requires SameUpgrade(first, d) && SameUpgrade(d, next)
    requires b == d.Version() + 1 <= SCHEMA_VERSION && next == Raised(d, b) && next.Version() == b
    ensures SameUpgrade(first, next) && (done + Block(d, b)) + Plan(next) == done + Plan(d)
  {
    SameUpgradeTransitive(first, d, next);
    PlanStep(d, b, next);
    Regroup(done, Block(d, b), Plan(next));
  }

  lemma SameUpgradeTransitive(d: Db, e: Db, f: Db)
    requires SameUpgrade(d, e) && SameUpgrade(e, f)
    ensures SameUpgrade(d, f)
  {
    forall id, c | id in d.rows ensures CellAfter(d, id, c) == CellAfter(f, id, c) {
      assert CellAfter(d, id, c) == CellAfter(e, id, c);
    }
    forall c ensures SessionAfter(d, c) == SessionAfter(f, c) {
      assert SessionAfter(d, c) == SessionAfter(e, c);
    }
  }

  /** A file at the last version that upgrades like `d` is the upgrade of `d`. */
  lemma UpgradeDone(d: Db, f: Db)
    requires f.Ok() && d.Ok() && f.Version() == SCHEMA_VERSION && SameUpgrade(d, f)
    ensures UpgradeOf(d, f)
  {
    forall c: Column ensures f.Has(c) <==> d.Has(c) || 2 <= Since(c) {
      assert Since(c) <= 7;
    }
    forall id, c | id in f.rows && c in f.columns ensures c in f.rows[id] && f.rows[id][c] == CellAfter(d, id, c) {
      assert CellAfter(d, id, c) == CellAfter(f, id, c);
    }
    forall c | c in f.session ensures f.session[c] == SessionAfter(d, c) {
      assert SessionAfter(d, c) == SessionAfter(f, c);
    }
  }

  /** One more version: what it needs is there, and it upgrades to the same. */
  lemma RaisedOk(d: Db, b: nat)
    requires d.Ok() && b == d.Version() + 1 <= SCHEMA_VERSION
    ensures Raised(d, b).Ok() && Raised(d, b).Version() == b && SameUpgrade(d, Raised(d, b))
  {
    forall c ensures c in Added(b) <==> Since(c) == b { AddedSince(b, c); }
    ColumnsOk(d, Added(b));
    FinishedOk(WithColumns(d, Added(b)), b);
    SameUpgradeTransitive(d, WithColumns(d, Added(b)), Raised(d, b));
  }

  /** Adding columns keeps a good file good, at its version, and upgrades to the
      same. */
  lemma {:induction false} ColumnsOk(d: Db, cs: seq<Column>)
    requires d.Ok() && forall c :: c in cs ==> 2 <= Since(c)
    ensures var w := WithColumns(d, cs);
      && w.Ok() && w.recorded == d.recorded && SameUpgrade(d, w)
      && (forall c :: c in cs || d.Has(c) ==> w.Has(c))
    decreases |cs|
  {
    if cs != [] {
      if d.Has(cs[0]) {
        ColumnsOk(d, cs[1..]);
      } else {
        var next := Applied(d, AddColumn(cs[0]));
        ColumnOk(d, cs[0]);
        ColumnsOk(next, cs[1..]);
        SameUpgradeTransitive(d, next, WithColumns(next, cs[1..]));
      }
    }
  }

  lemma ColumnOk(d: Db, c: Column)
    requires d.Ok() && !d.Has(c) && 2 <= Since(c)
    ensures var w := Applied(d, AddColumn(c));
      w.Ok() && w.recorded == d.recorded && SameUpgrade(d, w) && w.Has(c) && forall x :: d.Has(x) ==> w.Has(x)
  {
    var w := Applied(d, AddColumn(c));
    RowsGrow(d, c);
    forall x ensures w.Has(x) <==> d.Has(x) || x == c {}
    forall id, x | id in d.rows ensures CellAfter(d, id, x) == CellAfter(w, id, x) { CellStays(d, c, id, x); }
  }

  lemma RowsGrow(d: Db, c: Column)
    requires d.Ok() && !d.Has(c)
    ensures var w := Applied(d, AddColumn(c));
      w.rows.Keys == d.rows.Keys && forall id :: id in w.rows ==> w.rows[id].Keys == w.columns
  {}

  lemma CellStays(d: Db, c: Column, id: nat, x: Column)
    requires d.Ok() && !d.Has(c) && 2 <= Since(c) && id in d.rows
    ensures var w := Applied(d, AddColumn(c)); id in w.rows && CellAfter(d, id, x) == CellAfter(w, id, x)
  {
    var w := Applied(d, AddColumn(c));
    if c == MacParams {
      assert w.rows == d.rows;
    } else {
      assert w.rows[id] == d.rows[id][c := Default(c)];
    }
  }

  /** And so does the transaction, once the columns of its version are there. */
  lemma FinishedOk(d: Db, b: nat)
    requires d.Ok() && b == d.Version() + 1 <= SCHEMA_VERSION && forall c: Column :: Since(c) == b ==> d.Has(c)
    ensures var f := Finished(d, b); f.Ok() && f.Version() == b && SameUpgrade(d, f)
  {
    FinishedCells(d, b);
    FinishedKeeps(d, b);
  }

  lemma FinishedKeeps(d: Db, b: nat)
    requires d.Ok() && b == d.Version() + 1 <= SCHEMA_VERSION && forall c: Column :: Since(c) == b ==> d.Has(c)
    ensures var f := Finished(d, b); f.Ok() && f.Version() == b
  {
    assert b == 2 ==> Since(SyncState) == 2 && d.Has(SyncState);
  }

  lemma FinishedCells(d: Db, b: nat)
    requires b == d.Version() + 1
    ensures SameUpgrade(d, Finished(d, b))
  {
    var f := Finished(d, b);
    if b == 2 {
      forall id | id in d.rows ensures f.rows[id] == d.rows[id][SyncState := LegacyState(d.rows[id])] {}
    }
  }
}
