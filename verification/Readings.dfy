/** The readings buffer: one table keyed by row id, and the upload of its pending
    rows. */
module Readings {
  import opened Wrappers

  datatype SyncState = Pending | Synced | FailedPermanent

  /** `values` are the measured columns; `synced` is the legacy flag. */
  datatype Row = Row(stamp: int, values: string, synced: int, state: SyncState, attempts: nat)

  type Table = map<nat, Row>

  /** The legacy flag is kept in step with the state. */
  predicate InStep(t: Table) { forall id :: id in t ==> t[id].synced == if t[id].state.Pending? then 0 else 1 }

  function PendingIds(t: Table): set<nat> { set id | id in t && t[id].state.Pending? }

  function ResolvedIds(t: Table): set<nat> { set id | id in t && !t[id].state.Pending? }

  /** `chosen` are oldest of `class`: none left out is older. Ties are free. */
  ghost predicate Oldest(t: Table, chosen: set<nat>, group: set<nat>)
    requires chosen <= group <= t.Keys
  {
    forall a, b :: a in chosen && b in group - chosen ==> t[a].stamp <= t[b].stamp
  }

  function Least(a: nat, b: nat): nat { if a <= b then a else b }

  lemma {:induction false} HasOldest(t: Table, group: set<nat>) returns (id: nat)
    requires group <= t.Keys && group != {}
    ensures id in group && forall b :: b in group ==> t[id].stamp <= t[b].stamp
    decreases |group|
  {
    id :| id in group;
    var rest := group - {id};
    ghost var first := id;
    if rest != {} {
      var other := HasOldest(t, rest);
      if t[other].stamp < t[id].stamp { id := other; }
    }
    forall b | b in group ensures t[id].stamp <= t[b].stamp {
      assert b == first || b in rest;
    }
  }

  /** The `n` oldest rows of a class, or all of them, oldest first. */
  ghost predicate OldestFirst(t: Table, s: seq<nat>, group: set<nat>, n: nat)
    requires group <= t.Keys
  {
    && |s| == Least(n, |group|) && Distinct(s) && Ids(s) <= group && Oldest(t, Ids(s), group)
    && Ascending(t, s)
  }

  ghost predicate Ascending(t: Table, s: seq<nat>) {
    forall i, j :: 0 <= i < j < |s| ==> s[i] in t && s[j] in t && t[s[i]].stamp <= t[s[j]].stamp
  }

  /** SELECT of the oldest: any eldest row next, until there are enough. */
  method SelectOldest(t: Table, group: set<nat>, n: nat) returns (s: seq<nat>)
    requires group <= t.Keys
    ensures OldestFirst(t, s, group, n) && |Ids(s)| == |s|
  {
    s := [];
    var left := group;
    while |s| < n && left != {}
      invariant left == group - Ids(s) && |s| <= n && Selected(t, s, group)
      decreases left
    {
      ghost var eldest := HasOldest(t, left);
      var id :| id in left && forall b :: b in left ==> t[id].stamp <= t[b].stamp;
      AppendOldest(t, s, group, id);
      s := s + [id];
      left := left - {id};
    }
    SelectedAll(t, s, group, n);
  }

  /** Some rows of a class, none left out older, oldest first. */
  ghost predicate Selected(t: Table, s: seq<nat>, group: set<nat>)
    requires group <= t.Keys
  {
    |Ids(s)| == |s| <= |group| && OldestFirst(t, s, group, |s|)
  }

  lemma SelectedAll(t: Table, s: seq<nat>, group: set<nat>, n: nat)
    requires group <= t.Keys && Selected(t, s, group) && |s| <= n && (|s| == n || group - Ids(s) == {})
    ensures OldestFirst(t, s, group, n)
  {
    if group - Ids(s) == {} {
      assert group == Ids(s);
    }
  }

  lemma AppendOldest(t: Table, s: seq<nat>, group: set<nat>, id: nat)
    requires group <= t.Keys && Selected(t, s, group) && id in group - Ids(s)
    requires forall b :: b in group - Ids(s) ==> t[id].stamp <= t[b].stamp
    ensures Selected(t, s + [id], group) && Ids(s + [id]) == Ids(s) + {id}
  {
    Smaller(Ids(s), group, id);
    IdsAppend(s, id);
    GrownOldest(t, Ids(s), group, id);
    StampsAppend(t, s, group, id);
  }

  lemma IdsAppend(s: seq<nat>, id: nat)
    requires Distinct(s) && id !in Ids(s)
    ensures Ids(s + [id]) == Ids(s) + {id} && Distinct(s + [id]) && |Ids(s + [id])| == |Ids(s)| + 1
  {
    var longer := s + [id];
    assert longer[..|s|] == s && longer[..|s| + 1] == longer;
    IdsStep(longer, |s|);
  }

  lemma GrownOldest(t: Table, chosen: set<nat>, group: set<nat>, id: nat)
    requires chosen <= group <= t.Keys && id in group - chosen && Oldest(t, chosen, group)
    requires forall b :: b in group - chosen ==> t[id].stamp <= t[b].stamp
    ensures Oldest(t, chosen + {id}, group)
  {}

  lemma StampsAppend(t: Table, s: seq<nat>, group: set<nat>, id: nat)
    requires group <= t.Keys && Ids(s) <= group && id in group - Ids(s) && Oldest(t, Ids(s), group) && Ascending(t, s)
    ensures Ascending(t, s + [id])
  {}

  lemma Smaller(a: set<nat>, b: set<nat>, id: nat)
    requires a <= b && id in b - a
    ensures |a| < |b|
  {
    assert |b - a| > 0;
  }

  // ---- Marking -------------------------------------------------------------------

  /** An UPDATE of one row, which may have gone in the meantime. */
  function Marked(t: Table, id: nat, state: SyncState): Table {
    if id in t then t[id := t[id].(synced := 1, state := state)] else t
  }

  function Bumped(t: Table, id: nat): Table {
    if id in t then t[id := t[id].(attempts := t[id].attempts + 1)] else t
  }

  /** The table after marking all of `ids`: those rows and no others. */
  function AllMarked(t: Table, ids: set<nat>, state: SyncState): Table {
    map id | id in t :: if id in t && id in ids then t[id].(synced := 1, state := state) else t[id]
  }

  function AllBumped(t: Table, ids: set<nat>): Table {
    map id | id in t :: if id in t && id in ids then t[id].(attempts := t[id].attempts + 1) else t[id]
  }

  lemma BumpedOn(t: Table, ids: set<nat>, id: nat)
    requires id !in ids
    ensures Bumped(AllBumped(t, ids), id) == AllBumped(t, ids + {id})
  {}

  lemma MarkedOn(t: Table, ids: set<nat>, id: nat, state: SyncState)
    ensures Marked(AllMarked(t, ids, state), id, state) == AllMarked(t, ids + {id}, state)
  {}

  function Ids(s: seq<nat>): (r: set<nat>)
    ensures forall i :: 0 <= i < |s| ==> s[i] in r
  {
    set id | id in s
  }

  lemma IdsStep(s: seq<nat>, i: nat)
    requires i < |s|
    ensures Ids(s[..i + 1]) == Ids(s[..i]) + {s[i]}
  {
    assert s[..i + 1] == s[..i] + [s[i]];
  }

  // ---- The server's reply ------------------------------------------------------------

  /** One entry of the result list: `index` when it has an integer one, whether
      its status is "stored", whether it carries an error. */
  datatype Result = NotAnObject | Result(index: Option<int>, stored: bool, error: bool)

  /** HTTP status and, when the body has one, the result list. */
  datatype Reply = Reply(status: int, results: Option<seq<Result>>)

  /** A list every entry of which names a row; else the server is a legacy one. */
  predicate PerRow(reply: Reply) {
    && reply.results.Some? && |reply.results.value| > 0
    && (forall i :: 0 <= i < |reply.results.value| ==>
          reply.results.value[i].Result? && reply.results.value[i].index.Some?)
  }

  predicate About(e: Result, i: int) { e.Result? && e.index == Some(i) }

  predicate SaysStored(rs: seq<Result>, i: int) { exists k :: 0 <= k < |rs| && About(rs[k], i) && rs[k].stored }

  predicate SaysFailed(rs: seq<Result>, i: int) {
    exists k :: 0 <= k < |rs| && About(rs[k], i) && !rs[k].stored && rs[k].error
  }

  datatype Fate = Unresolved | Retry | Stored | Failed

  /** What a reply means for row `i` of the batch: an error about it outweighs any
      "stored", indices outside the batch say nothing, a row not mentioned stays. */
  function FateOf(reply: Reply, i: int): Fate {
    if reply.status != 200 then Retry
    else if !PerRow(reply) then Stored
    else if SaysFailed(reply.results.value, i) then Failed
    else if SaysStored(reply.results.value, i) then Stored
    else Unresolved
  }

  function Settled(r: Row, fate: Fate): Row {
    match fate
    case Unresolved => r
    case Retry => r.(attempts := r.attempts + 1)
    case Stored => r.(synced := 1, state := Synced)
    case Failed => r.(synced := 1, state := FailedPermanent)
  }

  /** `id`'s place in the batch. */
  function Place(batch: seq<nat>, id: nat): (i: nat)
    requires id in batch
    ensures i < |batch| && batch[i] == id
  {
    if batch[0] == id then 0 else 1 + Place(batch[1..], id)
  }

  /** The table after the reply: each batch row settled by its fate, no other
      row touched. */
  function Resolved(t: Table, batch: seq<nat>, reply: Reply): Table {
    map id | id in t :: if id in t && id in batch then Settled(t[id], FateOf(reply, Place(batch, id))) else t[id]
  }

  /** Some entry of the list is no object, or names no row. */
  predicate Coarse(results: seq<Result>) {
    results == [] || exists k :: 0 <= k < |results| && (results[k].NotAnObject? || results[k].index == None)
  }

  /** What becomes of row `i` of a batch. A failed upload only counts an attempt.
      A reply that does not account for rows one by one stores them all; one
      that does fails a row it calls an error and not stored, whatever else it
      says of it, stores one it calls stored, and leaves the others as they
      are. Rows outside the batch are never touched. */
  lemma ReplyMeans(t: Table, batch: seq<nat>, reply: Reply, id: nat, i: nat)
    requires Distinct(batch) && id in t && (id in batch ==> i < |batch| && batch[i] == id)
    ensures Resolved(t, batch, reply).Keys == t.Keys
    ensures var r := Resolved(t, batch, reply)[id];
      if id !in batch then r == t[id]
      else if reply.status != 200 then r == t[id].(attempts := t[id].attempts + 1)
      else if reply.results == None || Coarse(reply.results.value) then r == t[id].(synced := 1, state := Synced)
      else
        var rs := reply.results.value;
        if exists k :: 0 <= k < |rs| && rs[k].index == Some(i) && !rs[k].stored && rs[k].error then
          r == t[id].(synced := 1, state := FailedPermanent)
        else if exists k :: 0 <= k < |rs| && rs[k].index == Some(i) && rs[k].stored then
          r == t[id].(synced := 1, state := Synced)
        else r == t[id]
  {
    if id in batch {
      assert Place(batch, id) == i;
      if reply.results.Some? {
        assert PerRow(reply) <==> !Coarse(reply.results.value);
      }
    }
  }

  // ---- The object ------------------------------------------------------------------------

  class WQM1Database {
    var rows: Table
    var nextId: nat
    var rotatePending: bool

    ghost predicate Valid()
      reads this
    {
      InStep(rows) && forall id :: id in rows ==> id < nextId
    }

    constructor ()
      ensures Valid() && rows == map[] && !rotatePending
    {
      rows := map[];
      nextId := 1;
      rotatePending := false;
    }

    method InsertReading(stamp: int, values: string) returns (id: nat)
      requires Valid()
      modifies this`rows, this`nextId
      ensures Valid() && id == old(nextId) && id !in old(rows)
      ensures rows == old(rows)[id := Row(stamp, values, 0, Pending, 0)] && nextId == old(nextId) + 1
    {
      id := nextId;
      rows := rows[id := Row(stamp, values, 0, Pending, 0)];
      nextId := nextId + 1;
    }

    /** The oldest pending rows, oldest first. */
    method GetUnsynced(limit: nat) returns (batch: seq<nat>)
      requires Valid()
      ensures OldestFirst(rows, batch, PendingIds(rows), limit)
    {
      batch := SelectOldest(rows, PendingIds(rows), limit);
    }

    method MarkSynced(ids: seq<nat>)
      requires Valid()
      modifies this`rows
      ensures Valid() && rows == AllMarked(old(rows), Ids(ids), Synced)
    {
      for i := 0 to |ids|
        invariant rows == AllMarked(old(rows), Ids(ids[..i]), Synced)
        modifies this`rows
      {
        IdsStep(ids, i);
        MarkedOn(old(rows), Ids(ids[..i]), ids[i], Synced);
        rows := Marked(rows, ids[i], Synced);
      }
      assert ids[..|ids|] == ids;
    }

    method MarkFailedPermanent(ids: seq<nat>)
      requires Valid()
      modifies this`rows
      ensures Valid() && rows == AllMarked(old(rows), Ids(ids), FailedPermanent)
    {
      for i := 0 to |ids|
        invariant rows == AllMarked(old(rows), Ids(ids[..i]), FailedPermanent)
        modifies this`rows
      {
        IdsStep(ids, i);
        MarkedOn(old(rows), Ids(ids[..i]), ids[i], FailedPermanent);
        rows := Marked(rows, ids[i], FailedPermanent);
      }
      assert ids[..|ids|] == ids;
    }

    method BumpSyncAttempts(ids: seq<nat>)
      requires Valid() && Distinct(ids)
      modifies this`rows
      ensures Valid() && rows == AllBumped(old(rows), Ids(ids))
    {
      ghost var was := rows;
      assert AllBumped(was, Ids(ids[..0])) == was;
      for i := 0 to |ids|
        invariant rows == AllBumped(was, Ids(ids[..i]))
        modifies this`rows
      {
        IdsStep(ids, i);
        assert ids[i] !in Ids(ids[..i]);
        BumpedOn(was, Ids(ids[..i]), ids[i]);
        rows := Bumped(rows, ids[i]);
      }
      assert ids[..|ids|] == ids;
    }

    /** Deletes the `n` oldest of a class of rows, or all of them. */
    method DeleteOldest(group: set<nat>, n: nat) returns (gone: set<nat>)
      requires Valid() && group <= rows.Keys
      modifies this`rows
      ensures Valid() && gone <= group && |gone| == Least(n, |group|)
      ensures Oldest(old(rows), gone, group) && rows == old(rows) - gone
    {
      var chosen := SelectOldest(rows, group, n);
      gone := Ids(chosen);
      rows := rows - gone;
    }

    /** Down to `maxRows`: the oldest resolved rows, and pending ones only when
        `rotatePending` and no resolved row is left. */
    method Rotate(maxRows: nat) returns (resolved: set<nat>, pending: set<nat>)
      requires Valid()
      modifies this`rows
      ensures Valid() && rows == old(rows) - resolved - pending
      ensures Rotation(old(rows), maxRows, rotatePending, resolved, pending)
    {
      resolved, pending := {}, {};
      ghost var was := rows;
      if |rows| > maxRows {
        resolved := DeleteOldest(ResolvedIds(rows), |rows| - maxRows);
        Remaining(was, resolved);
        if rotatePending && |rows| > maxRows {
          pending := DeleteOldest(PendingIds(rows), |rows| - maxRows);
        }
      }
      RotationDone(was, maxRows, rotatePending, resolved, pending);
    }

    /** What `sync_readings` does with the reply to a batch it fetched before;
        inserts and rotations may have come in between. */
    method ResolveBatch(batch: seq<nat>, reply: Reply) returns (count: nat)
      requires Valid() && Distinct(batch)
      modifies this`rows
      ensures Valid() && rows == Resolved(old(rows), batch, reply)
      ensures count == if reply.status != 200 then 0 else if !PerRow(reply) then |batch|
                       else StoredCount(reply.results.value, |batch|)
    {
      ghost var was := rows;
      if reply.status != 200 {
        BumpSyncAttempts(batch);
        SettleAll(was, batch, reply);
        return 0;
      }
      if !PerRow(reply) {
        MarkSynced(batch);
        SettleAll(was, batch, reply);
        return |batch|;
      }
      var stored, failed := ReadResults(batch, reply.results.value);
      MarkSynced(stored);
      MarkFailedPermanent(failed);
      count := |stored|;
      SettlePerRow(was, batch, reply, stored, failed);
    }

    /** The loop over the result list. */
    method ReadResults(batch: seq<nat>, results: seq<Result>) returns (stored: seq<nat>, failed: seq<nat>)
      requires forall k :: 0 <= k < |results| ==> results[k].Result? && results[k].index.Some?
      requires Distinct(batch)
      ensures forall i :: 0 <= i < |batch| ==> (batch[i] in stored <==> SaysStored(results, i))
      ensures forall i :: 0 <= i < |batch| ==> (batch[i] in failed <==> SaysFailed(results, i))
      ensures Ids(stored) <= Ids(batch) && Ids(failed) <= Ids(batch)
      ensures |stored| == StoredCount(results, |batch|)
    {
      stored, failed := [], [];
      for k := 0 to |results|
        invariant forall i :: 0 <= i < |batch| ==> (batch[i] in stored <==> SaysStored(results[..k], i))
        invariant forall i :: 0 <= i < |batch| ==> (batch[i] in failed <==> SaysFailed(results[..k], i))
        invariant Ids(stored) <= Ids(batch) && Ids(failed) <= Ids(batch)
        invariant |stored| == StoredCount(results[..k], |batch|)
      {
        assert results[..k + 1][..k] == results[..k];
        var e := results[k];
        forall i ensures SaysStored(results[..k + 1], i) <==> SaysStored(results[..k], i) || (About(e, i) && e.stored) {
          OneMoreResult(results, k, i);
        }
        forall i ensures SaysFailed(results[..k + 1], i) <==>
          SaysFailed(results[..k], i) || (About(e, i) && !e.stored && e.error)
        {
          OneMoreResult(results, k, i);
        }
        var index := e.index.value;
        if 0 <= index < |batch| {
          if e.stored {
            stored := stored + [batch[index]];
          } else if e.error {
            failed := failed + [batch[index]];
          }
        }
      }
      assert results[..|results|] == results;
    }
  }

  /** How many entries call a row of a batch of `n` stored. */
  function StoredCount(results: seq<Result>, n: nat): nat
    decreases |results|
  {
    if results == [] then 0
    else
      var last := |results| - 1;
      var e := results[last];
      StoredCount(results[..last], n) + if e.Result? && e.index.Some? && 0 <= e.index.value < n && e.stored then 1 else 0
  }

  /** The count is of the entries that call a row of the batch stored. */
  lemma {:induction false} CountsStored(results: seq<Result>, n: nat)
    ensures StoredCount(results, n) == |StoredEntries(results, n)|
    decreases |results|
  {
    if results == [] {
      assert StoredEntries(results, n) == {};
    } else {
      var last := |results| - 1;
      CountsStored(results[..last], n);
      assert StoredEntries(results, n) == StoredEntries(results[..last], n) +
        if Counted(results[last], n) then {last} else {};
    }
  }

  predicate Counted(e: Result, n: nat) { e.Result? && e.index.Some? && 0 <= e.index.value < n && e.stored }

  function StoredEntries(results: seq<Result>, n: nat): set<int> {
    set k | 0 <= k < |results| && Counted(results[k], n)
  }

  lemma OneMoreResult(rs: seq<Result>, k: nat, i: int)
    requires k < |rs|
    ensures SaysStored(rs[..k + 1], i) <==> SaysStored(rs[..k], i) || (About(rs[k], i) && rs[k].stored)
    ensures SaysFailed(rs[..k + 1], i) <==> SaysFailed(rs[..k], i) || (About(rs[k], i) && !rs[k].stored && rs[k].error)
  {
    assert rs[..k + 1] == rs[..k] + [rs[k]];
    assert rs[..k + 1][k] == rs[k];
    assert forall j :: 0 <= j < k ==> rs[..k + 1][j] == rs[..k][j];
  }

  lemma SettleAll(t: Table, batch: seq<nat>, reply: Reply)
    requires Distinct(batch) && (reply.status != 200 || !PerRow(reply))
    ensures reply.status != 200 ==> AllBumped(t, Ids(batch)) == Resolved(t, batch, reply)
    ensures reply.status == 200 ==> AllMarked(t, Ids(batch), Synced) == Resolved(t, batch, reply)
  {}

  lemma SettlePerRow(t: Table, batch: seq<nat>, reply: Reply, stored: seq<nat>, failed: seq<nat>)
    requires Distinct(batch) && reply.status == 200 && PerRow(reply)
    requires forall i :: 0 <= i < |batch| ==> (batch[i] in stored <==> SaysStored(reply.results.value, i))
    requires forall i :: 0 <= i < |batch| ==> (batch[i] in failed <==> SaysFailed(reply.results.value, i))
    requires Ids(stored) <= Ids(batch) && Ids(failed) <= Ids(batch)
    ensures AllMarked(AllMarked(t, Ids(stored), Synced), Ids(failed), FailedPermanent) == Resolved(t, batch, reply)
  {
    var r := AllMarked(AllMarked(t, Ids(stored), Synced), Ids(failed), FailedPermanent);
    forall id | id in t ensures r[id] == Resolved(t, batch, reply)[id] {
      if id in batch {
        assert batch[Place(batch, id)] == id;
      } else {
        assert id !in Ids(stored) && id !in Ids(failed);
      }
    }
  }

  // ---- Rotation ------------------------------------------------------------------------------

  lemma SplitByState(t: Table)
    ensures |t| == |PendingIds(t)| + |ResolvedIds(t)|
  {
    assert t.Keys == PendingIds(t) + ResolvedIds(t);
    assert |t.Keys| == |t|;
  }

  lemma Remaining(t: Table, gone: set<nat>)
    requires gone <= t.Keys
    ensures |t - gone| == |t| - |gone|
    ensures gone <= ResolvedIds(t) ==> PendingIds(t - gone) == PendingIds(t)
  {
    assert (t - gone).Keys == t.Keys - gone;
    assert |(t - gone).Keys| == |t - gone|;
  }

  /** Which rows one rotation removes, said outright. */
  ghost predicate Rotation(t: Table, maxRows: nat, rotatePending: bool, resolved: set<nat>, pending: set<nat>) {
    var excess := if |t| <= maxRows then 0 else |t| - maxRows;
    && resolved <= ResolvedIds(t) && Oldest(t, resolved, ResolvedIds(t))
    && |resolved| == Least(excess, |ResolvedIds(t)|)
    && pending <= PendingIds(t) && Oldest(t, pending, PendingIds(t))
    && |pending| == (if rotatePending then excess - |resolved| else 0)
  }

  /** One deletion after the other is one rotation. */
  lemma RotationDone(t: Table, maxRows: nat, rotatePending: bool, resolved: set<nat>, pending: set<nat>)
    requires var excess := if |t| <= maxRows then 0 else |t| - maxRows;
      resolved <= ResolvedIds(t) && Oldest(t, resolved, ResolvedIds(t)) && |resolved| == Least(excess, |ResolvedIds(t)|)
    requires pending == {} ||
      (pending <= PendingIds(t - resolved) && Oldest(t - resolved, pending, PendingIds(t - resolved)))
    requires |pending| == if rotatePending && |t - resolved| > maxRows
                          then Least(|t - resolved| - maxRows, |PendingIds(t - resolved)|) else 0
    ensures Rotation(t, maxRows, rotatePending, resolved, pending)
  {
    SplitByState(t);
    Remaining(t, resolved);
  }

  /** So what is left: never fewer rows than the cap needs, never a pending row
      lost unless asked for, and then exactly the cap. */
  lemma RotatedDownToTheCap(t: Table, maxRows: nat, rotatePending: bool, resolved: set<nat>, pending: set<nat>)
    requires Rotation(t, maxRows, rotatePending, resolved, pending) && |t| > maxRows
    ensures var left := t - resolved - pending;
      && (!rotatePending ==> PendingIds(left) == PendingIds(t))
      && (|left| == if rotatePending || |PendingIds(t)| <= maxRows then maxRows else |PendingIds(t)|)
      && (pending != {} ==> ResolvedIds(left) == {})
  {
    SplitByState(t);
    Remaining(t, resolved);
    Remaining(t - resolved, pending);
    if pending != {} {
      assert |resolved| == |ResolvedIds(t)|;
      SameSize(resolved, ResolvedIds(t));
    }
    if !rotatePending { assert pending == {}; }
  }

  lemma SameSize(a: set<nat>, b: set<nat>)
    requires a <= b && |a| == |b|
    ensures a == b
  {
    assert |b - a| == 0;
  }
}
