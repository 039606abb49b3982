/** Runs of the readings buffer: inserts, uploads and rotations interleaved. */
module ReadingRuns {
  import opened Wrappers
  import opened Readings

  datatype Event =
    | Insert(stamp: int, values: string)
    | Fetch(batch: seq<nat>)
    | Answer(reply: Reply)
    | Rotate(maxRows: nat, resolved: set<nat>, pending: set<nat>)

  /** The table, the batch being posted, and the log: what was inserted under
      each id, and the server's last word on it. */
  datatype World = World(rows: Table, nextId: nat, batch: seq<nat>, inserted: map<nat, (int, string)>, word: map<nat, Fate>)

  function Boot(): World { World(map[], 1, [], map[], map[]) }

  /** What the database methods allow; `rotatePending` is the same all run. */
  ghost predicate Possible(w: World, e: Event, rotatePending: bool) {
    match e
    case Insert(_, _) => true
    case Fetch(batch) => Distinct(batch) && Ids(batch) <= PendingIds(w.rows)
    case Answer(_) => true
    case Rotate(maxRows, resolved, pending) => Rotation(w.rows, maxRows, rotatePending, resolved, pending)
  }

  /** Whether a reply speaks about a row. */
  predicate Speaks(batch: seq<nat>, reply: Reply, id: nat) {
    id in batch && (FateOf(reply, Place(batch, id)).Stored? || FateOf(reply, Place(batch, id)).Failed?)
  }

  /** The server's last words after one more reply. */
  function Heard(word: map<nat, Fate>, batch: seq<nat>, reply: Reply): map<nat, Fate> {
    map id | id in word.Keys + Ids(batch) && (id in word || Speaks(batch, reply, id))
      :: if Speaks(batch, reply, id) then FateOf(reply, Place(batch, id)) else word[id]
  }

  function Moved(w: World, e: Event): World {
    match e
    case Insert(stamp, values) =>
      w.(rows := w.rows[w.nextId := Row(stamp, values, 0, Pending, 0)], nextId := w.nextId + 1,
         inserted := w.inserted[w.nextId := (stamp, values)])
    case Fetch(batch) => w.(batch := batch)
    case Answer(reply) =>
      w.(rows := Resolved(w.rows, w.batch, reply), batch := [], word := Heard(w.word, w.batch, reply))
    case Rotate(_, resolved, pending) => w.(rows := w.rows - resolved - pending)
  }

  function StateBy(word: map<nat, Fate>, id: nat): SyncState {
    if id !in word then Pending else if word[id].Stored? then Synced else FailedPermanent
  }

  /** Every row holds what was inserted under its id, in the state the server's
      last word left it in. */
  ghost predicate Faithful(w: World) {
    && InStep(w.rows) && Distinct(w.batch) && w.nextId >= 1
    && (forall id :: id in w.inserted <==> 1 <= id < w.nextId)
    && (forall id :: id in w.rows ==>
          && id in w.inserted && (w.rows[id].stamp, w.rows[id].values) == w.inserted[id]
          && w.rows[id].state == StateBy(w.word, id))
    && (forall id :: id in w.batch ==> id in w.inserted) && (forall id :: id in w.word ==> id in w.inserted)
    && (forall id :: id in w.word ==> w.word[id].Stored? || w.word[id].Failed?)
  }

  /** Whatever is missing from the table, the server has spoken about. */
  ghost predicate NothingLost(w: World) { forall id :: id in w.inserted && id !in w.rows ==> id in w.word }

  lemma StaysFaithful(w: World, e: Event, rotatePending: bool)
    requires Faithful(w) && Possible(w, e, rotatePending)
    ensures Faithful(Moved(w, e))
    ensures NothingLost(w) && !rotatePending ==> NothingLost(Moved(w, e))
  {
    match e
    case Answer(reply) => AnswerFaithful(w, reply);
    case _ =>
  }

  /** A row after a reply, given what the reply said of it. */
  lemma RowSettled(r: Row, before: map<nat, Fate>, id: nat, fate: Fate)
    requires r.state == StateBy(before, id) && (r.synced == 1 <==> !r.state.Pending?) && (r.synced == 0 || r.synced == 1)
    ensures var s := Settled(r, fate);
      var after := if fate.Stored? || fate.Failed? then before[id := fate] else before;
      s.stamp == r.stamp && s.values == r.values && s.state == StateBy(after, id)
      && s.synced == if s.state.Pending? then 0 else 1
  {}

  lemma HeardOf(word: map<nat, Fate>, batch: seq<nat>, reply: Reply, id: nat)
    ensures var after := Heard(word, batch, reply);
      && (id in after <==> id in word || Speaks(batch, reply, id))
      && (id in after ==> after[id] == if Speaks(batch, reply, id) then FateOf(reply, Place(batch, id)) else word[id])
  {
    if id in batch {
      var i :| 0 <= i < |batch| && batch[i] == id;
      assert id in Ids(batch);
    }
  }

  lemma RowAnswered(w: World, reply: Reply, id: nat)
    requires Faithful(w) && id in w.rows
    ensures id in Moved(w, Answer(reply)).rows
    ensures var next := Moved(w, Answer(reply));
      var r := next.rows[id];
      r.stamp == w.rows[id].stamp && r.values == w.rows[id].values && r.state == StateBy(next.word, id)
      && r.synced == if r.state.Pending? then 0 else 1
  {
    HeardOf(w.word, w.batch, reply, id);
    if id in w.batch {
      RowSettled(w.rows[id], w.word, id, FateOf(reply, Place(w.batch, id)));
    }
  }

  lemma AnswerFaithful(w: World, reply: Reply)
    requires Faithful(w)
    ensures Faithful(Moved(w, Answer(reply)))
    ensures NothingLost(w) ==> NothingLost(Moved(w, Answer(reply)))
  {
    var next := Moved(w, Answer(reply));
    assert next.rows.Keys == w.rows.Keys;
    forall id | id in w.rows
      ensures next.rows[id].stamp == w.rows[id].stamp && next.rows[id].values == w.rows[id].values
      ensures next.rows[id].state == StateBy(next.word, id)
      ensures next.rows[id].synced == if next.rows[id].state.Pending? then 0 else 1
    {
      RowAnswered(w, reply, id);
    }
    forall id | id in w.word ensures id in next.word { HeardOf(w.word, w.batch, reply, id); }
    WordsGood(w, reply, next.word);
  }

  lemma WordsGood(w: World, reply: Reply, word: map<nat, Fate>)
    requires Faithful(w) && word == Heard(w.word, w.batch, reply)
    ensures forall id :: id in word ==> id in w.inserted && (word[id].Stored? || word[id].Failed?)
  {
    forall id | id in word ensures id in w.inserted && (word[id].Stored? || word[id].Failed?) {
      HeardOf(w.word, w.batch, reply, id);
    }
  }

  ghost predicate AllPossible(w: World, events: seq<Event>, rotatePending: bool)
    decreases |events|
  {
    events == [] || (Possible(w, events[0], rotatePending) && AllPossible(Moved(w, events[0]), events[1..], rotatePending))
  }

  function Ran(w: World, events: seq<Event>): World
    decreases |events|
  {
    if events == [] then w else Ran(Moved(w, events[0]), events[1..])
  }

  lemma {:induction false} RunFaithful(w: World, events: seq<Event>, rotatePending: bool)
    requires Faithful(w) && NothingLost(w) && AllPossible(w, events, rotatePending)
    ensures Faithful(Ran(w, events)) && (!rotatePending ==> NothingLost(Ran(w, events)))
    decreases |events|
  {
    if events != [] {
      StaysFaithful(w, events[0], rotatePending);
      if rotatePending {
        RunFaithfulOnly(Moved(w, events[0]), events[1..], rotatePending);
      } else {
        RunFaithful(Moved(w, events[0]), events[1..], rotatePending);
      }
    }
  }

  lemma {:induction false} RunFaithfulOnly(w: World, events: seq<Event>, rotatePending: bool)
    requires Faithful(w) && AllPossible(w, events, rotatePending)
    ensures Faithful(Ran(w, events))
    decreases |events|
  {
    if events != [] {
      StaysFaithful(w, events[0], rotatePending);
      RunFaithfulOnly(Moved(w, events[0]), events[1..], rotatePending);
    }
  }

  /** Over every interleaving of inserts, uploads with any replies, and
      rotations, each row is as inserted and its legacy flag in step; and unless
      pending rows may be rotated out, each reading ever inserted is still
      pending in the table or had the server's word on it. */
  lemma NoReadingIsLost(events: seq<Event>, rotatePending: bool, id: nat)
    requires AllPossible(Boot(), events, rotatePending)
    ensures var w := Ran(Boot(), events);
      && (id in w.rows ==> (w.rows[id].synced == 1 <==> !w.rows[id].state.Pending?))
      && (id in w.rows ==> id in w.inserted && (w.rows[id].stamp, w.rows[id].values) == w.inserted[id])
      && (!rotatePending && id in w.inserted && id !in w.word ==> id in w.rows && w.rows[id].state.Pending?)
  {
    RunFaithful(Boot(), events, rotatePending);
  }
}
