/** The dispatcher of queued device commands and its cache of handled ones. */
module DeviceCommands {
  import opened Wrappers

  const KEPT_WITHOUT_EXPIRY := 24 * 60 * 60 * 1000
  const MESSAGE_MAX := 200

  /** `result` is the text of the JSON object that goes with the status. */
  datatype Outcome = Outcome(status: string, result: Option<string>, message: string) {
    predicate Ok() { status == "applied" || status == "rejected" }
  }

  function Clip(message: string): string { if |message| <= MESSAGE_MAX then message else message[..MESSAGE_MAX] }

  function Rejected(message: string): (o: Outcome)
    ensures o.Ok()
  {
    Outcome("rejected", None, Clip(message))
  }

  /** `expiresAt` as received: absent, unusable, or epoch milliseconds. */
  datatype Expiry = Missing | Unusable | At(ms: int)

  /** A pending command as fetched. An empty `id` stands for one that is absent
      or no string, `unexpected` for the first field outside the allowed four,
      `kind` for the type when it is a string, `payload` for an object's text. */
  datatype Command = Command(id: string, unexpected: Option<string>, kind: Option<string>, expiry: Expiry,
                             payload: Option<string>)

  /** The clock as one call reads it: to evict, to keep, to check, to store. */
  datatype Clock = Clock(evict: int, keep: int, check: int, store: int) {
    predicate Forward() { evict <= keep <= check <= store }
  }

  function KeepUntil(c: Command, now: int): int {
    match c.expiry
    case At(ms) => ms
    case _ => now + KEPT_WITHOUT_EXPIRY
  }

  /** Why a command is refused; None when it goes to the hardware. */
  function Refusal(c: Command, now: int): Option<Outcome> {
    if c.unexpected.Some? then Some(Rejected("unexpected field: " + c.unexpected.value))
    else if c.kind.None? || c.kind.value == "" then Some(Rejected("missing type"))
    else if c.kind.value != "ph_calibrate" && c.kind.value != "rs485_config" then Some(Rejected("unknown type"))
    else if c.expiry.Missing? then Some(Rejected("missing expiresAt"))
    else if c.expiry.Unusable? then Some(Rejected("expiresAt must be epoch-ms or ISO-8601"))
    else if now >= c.expiry.ms then Some(Rejected("expired"))
    else if c.payload.None? then Some(Rejected("payload must be an object"))
    else None
  }

  // ---- The cache: an ordered dictionary -----------------------------------------

  datatype Entry = Entry(id: string, outcome: Outcome, expires: int)
  type Cache = seq<Entry>

  predicate Unique(h: Cache) {
    (forall i, j :: 0 <= i < j < |h| ==> h[i].id != h[j].id) && (forall i :: 0 <= i < |h| ==> h[i].outcome.Ok())
  }

  predicate Has(h: Cache, id: string) { exists i :: 0 <= i < |h| && h[i].id == id }

  function Index(h: Cache, id: string): (i: nat)
    requires Has(h, id)
    ensures i < |h| && h[i].id == id
  {
    if h[0].id == id then 0
    else
      assert Has(h[1..], id) by { var i :| 0 <= i < |h| && h[i].id == id; assert h[1..][i - 1] == h[i]; }
      1 + Index(h[1..], id)
  }

  function Live(h: Cache, now: int): (l: Cache)
    decreases |h|
  {
    if h == [] then [] else (if now >= h[0].expires then [] else [h[0]]) + Live(h[1..], now)
  }

  lemma {:induction false} LiveHolds(h: Cache, now: int, e: Entry)
    ensures e in Live(h, now) <==> e in h && now < e.expires
    decreases |h|
  {
    if h != [] {
      LiveHolds(h[1..], now, e);
      assert h == [h[0]] + h[1..];
    }
  }

  predicate Absent(h: Cache, id: string) { forall i :: 0 <= i < |h| ==> h[i].id != id }

  lemma {:induction false} LiveUnique(h: Cache, now: int)
    requires Unique(h)
    ensures Unique(Live(h, now))
    decreases |h|
  {
    if h != [] {
      LiveUnique(h[1..], now);
      forall i | 0 <= i < |Live(h[1..], now)| ensures Live(h[1..], now)[i].id != h[0].id {
        LiveHolds(h[1..], now, Live(h[1..], now)[i]);
      }
    }
  }

  function Put(h: Cache, e: Entry): Cache { h + [e] }

  /** Moved to the end, as the order of last use. */
  function Touched(h: Cache, i: nat): (r: Cache)
    requires i < |h|
    ensures forall e :: e in r <==> e in h
  {
    assert h == h[..i] + [h[i]] + h[i + 1..];
    h[..i] + h[i + 1..] + [h[i]]
  }

  lemma TouchedUnique(h: Cache, i: nat)
    requires Unique(h) && i < |h|
    ensures Unique(Touched(h, i))
  {}

  // ---- The file ----------------------------------------------------------------------

  /** One row of the cache file, as read: any field may be missing or wrong. */
  datatype Row = Row(id: string, status: Option<string>, result: Option<string>, message: Option<string>,
                     expires: Option<int>)

  function RowOf(e: Entry): Row {
    Row(e.id, Some(e.outcome.status), e.outcome.result, Some(e.outcome.message), Some(e.expires))
  }

  function RowsOf(h: Cache): (r: seq<Row>)
    ensures |r| == |h|
  {
    seq(|h|, i requires 0 <= i < |h| => RowOf(h[i]))
  }

  /** Rows with no known status are skipped, one with no expiry is kept a day. */
  function EntryOf(r: Row, fallback: int): Option<Entry> {
    if r.status == Some("applied") || r.status == Some("rejected") then
      Some(Entry(r.id, Outcome(r.status.value, r.result, if r.message.Some? then r.message.value else ""),
                 if r.expires.Some? then r.expires.value else fallback))
    else None
  }

  /** Dictionary assignment: in place when the key is there, else at the end. */
  function Assign(h: Cache, e: Entry): Cache { if Has(h, e.id) then h[Index(h, e.id) := e] else h + [e] }

  function LoadedRow(h: Cache, r: Row, fallback: int): Cache {
    match EntryOf(r, fallback)
    case None => h
    case Some(e) => Assign(h, e)
  }

  function Loaded(rows: seq<Row>, fallback: int): Cache
    decreases |rows|
  {
    if rows == [] then [] else LoadedRow(Loaded(rows[..|rows| - 1], fallback), rows[|rows| - 1], fallback)
  }

  predicate Usable(r: Row) { r.status == Some("applied") || r.status == Some("rejected") }

  /** Row `k` is usable, and no later usable one has its id. */
  predicate LastWord(rows: seq<Row>, k: nat) {
    k < |rows| && Usable(rows[k]) && forall j :: k < j < |rows| ==> rows[j].id != rows[k].id || !Usable(rows[j])
  }

  /** The entry is what the row says, where it says something. */
  predicate Means(r: Row, fallback: int, e: Entry) {
    && e.id == r.id && r.status == Some(e.outcome.status) && e.outcome.result == r.result
    && e.outcome.message == (if r.message.Some? then r.message.value else "")
    && e.expires == (if r.expires.Some? then r.expires.value else fallback)
  }

  lemma AssignHolds(h: Cache, e: Entry, x: Entry)
    requires Unique(h)
    ensures x in Assign(h, e) <==> x == e || (x in h && x.id != e.id)
  {
    var r := Assign(h, e);
    if Has(h, e.id) {
      var i := Index(h, e.id);
      assert r[i] == e;
      forall j | 0 <= j < |h| && j != i ensures r[j] == h[j] && h[j].id != e.id {}
    }
  }

  /** Whatever the file holds, the cache read from it remembers of each id what
      the last usable row about it says, and nothing else. */
  lemma {:induction false} LoadedExactly(rows: seq<Row>, fallback: int, x: Entry)
    ensures Unique(Loaded(rows, fallback))
    ensures x in Loaded(rows, fallback) <==> exists k :: 0 <= k < |rows| && LastWord(rows, k) && Means(rows[k], fallback, x)
    decreases |rows|
  {
    if rows != [] {
      var n := |rows| - 1;
      var before := rows[..n];
      LoadedExactly(before, fallback, x);
      var e := EntryOf(rows[n], fallback);
      if e.Some? {
        AssignUnique(Loaded(before, fallback), e.value);
        AssignHolds(Loaded(before, fallback), e.value, x);
      }
      EntryMeans(rows[n], fallback, x);
      assert LastWord(rows, n) <==> Usable(rows[n]);
      forall k | 0 <= k < n
        ensures before[k] == rows[k]
        ensures LastWord(rows, k) <==> LastWord(before, k) && !(Usable(rows[n]) && rows[n].id == rows[k].id)
      {
        WordBefore(rows, k);
      }
    }
  }

  lemma EntryMeans(r: Row, fallback: int, x: Entry)
    ensures EntryOf(r, fallback).Some? <==> Usable(r)
    ensures Usable(r) ==> EntryOf(r, fallback).value.outcome.Ok() && (Means(r, fallback, x) <==> x == EntryOf(r, fallback).value)
    ensures Means(r, fallback, x) ==> x.id == r.id
  {}

  lemma WordBefore(rows: seq<Row>, k: nat)
    requires k < |rows| - 1
    ensures var n := |rows| - 1;
      LastWord(rows, k) <==> LastWord(rows[..n], k) && !(Usable(rows[n]) && rows[n].id == rows[k].id)
  {
    var before := rows[..|rows| - 1];
    assert forall j :: 0 <= j < |before| ==> before[j] == rows[j];
  }

  /** Reloading the saved cache gives the same dictionary, in the same order. */
  lemma {:induction false} SaveLoad(h: Cache, fallback: int)
    requires Unique(h)
    ensures Loaded(RowsOf(h), fallback) == h
    decreases |h|
  {
    if h != [] {
      var n := |h| - 1;
      var rows := RowsOf(h);
      assert rows[..n] == RowsOf(h[..n]);
      SaveLoad(h[..n], fallback);
      assert h[n].outcome.Ok();
      assert EntryOf(rows[n], fallback) == Some(h[n]);
      assert !Has(h[..n], h[n].id);
      assert h == h[..n] + [h[n]];
    }
  }

  // ---- One call ------------------------------------------------------------------------

  /** The dispatcher: the cache in memory, the file, and every id that reached
      the hardware, in order. */
  datatype State = State(handled: Cache, file: seq<Row>, reached: seq<string>)

  predicate Cached(s: State, c: Command, clock: Clock) { Has(Live(s.handled, clock.evict), c.id) }

  /** Whether this delivery calls the hardware. */
  predicate Reaches(s: State, c: Command, clock: Clock) {
    c.id != "" && !Cached(s, c, clock) && Refusal(c, clock.check).None?
  }

  /** What is remembered of a command handled now; `answer` is what the hardware
      said, if it was asked. */
  function Remembered(c: Command, clock: Clock, answer: Outcome): Entry {
    var refusal := Refusal(c, clock.check);
    Entry(c.id, if refusal.Some? then refusal.value else answer, KeepUntil(c, clock.keep))
  }

  function Stored(s: State, e: Entry, now: int): State {
    var h := Put(Live(s.handled, now), e);
    s.(handled := h, file := RowsOf(h))
  }

  function Applied(s: State, c: Command, clock: Clock, answer: Outcome): (State, Outcome) {
    if c.id == "" then (s, Rejected("missing id"))
    else
      var live := s.(handled := Live(s.handled, clock.evict));
      if Cached(s, c, clock) then
        var i := Index(live.handled, c.id);
        (live.(handled := Touched(live.handled, i)), live.handled[i].outcome)
      else
        var e := Remembered(c, clock, answer);
        var asked := if Reaches(s, c, clock) then live.(reached := s.reached + [c.id]) else live;
        (Stored(asked, e, clock.store), e.outcome)
  }

  method KeepLive(h: Cache, now: int) returns (kept: Cache)
    ensures kept == Live(h, now)
  {
    kept := [];
    for i := 0 to |h|
      invariant kept + Live(h[i..], now) == Live(h, now)
    {
      LiveStep(h, i, now);
      if now < h[i].expires {
        kept := kept + [h[i]];
      }
    }
    assert h[|h|..] == [];
  }

  lemma LiveStep(h: Cache, i: nat, now: int)
    requires i < |h|
    ensures Live(h[i..], now) == (if now < h[i].expires then [h[i]] else []) + Live(h[i + 1..], now)
  {
    assert h[i..][1..] == h[i + 1..];
  }

  // ---- The object -------------------------------------------------------------------------

  class DeviceCommandDispatcher {
    var handled: Cache
    var file: seq<Row>
    var reached: seq<string>

    ghost function Now(): State
      reads this
    {
      State(handled, file, reached)
    }

    ghost predicate Valid()
      reads this
    {
      Unique(handled)
    }

    constructor (saved: seq<Row>, now: int)
      ensures Valid() && Now() == State(Loaded(saved, now + KEPT_WITHOUT_EXPIRY), saved, [])
    {
      file := saved;
      reached := [];
      handled := [];
      new;
      LoadHandled(now);
    }

    /** Reads the file row by row into an empty dictionary. */
    method LoadHandled(now: int)
      modifies this`handled
      ensures Valid() && handled == Loaded(file, now + KEPT_WITHOUT_EXPIRY)
    {
      var fallback := now + KEPT_WITHOUT_EXPIRY;
      handled := [];
      for i := 0 to |file|
        invariant Valid() && handled == Loaded(file[..i], fallback)
        modifies this`handled
      {
        assert file[..i + 1][..i] == file[..i];
        var e := EntryOf(file[i], fallback);
        if e.Some? {
          AssignUnique(handled, e.value);
          handled := Assign(handled, e.value);
        }
      }
      assert file[..|file|] == file;
    }

    method EvictExpired(now: int)
      requires Valid()
      modifies this`handled
      ensures Valid() && handled == Live(old(handled), now)
    {
      LiveUnique(handled, now);
      handled := KeepLive(handled, now);
    }

    method Store(id: string, outcome: Outcome, keepUntil: int, now: int)
      requires Valid() && Absent(handled, id) && outcome.Ok()
      modifies this`handled, this`file
      ensures Valid() && Now() == Stored(old(Now()), Entry(id, outcome, keepUntil), now)
    {
      ghost var was := handled;
      EvictExpired(now);
      forall i | 0 <= i < |handled| ensures handled[i].id != id { LiveHolds(was, now, handled[i]); }
      handled := handled + [Entry(id, outcome, keepUntil)];
      file := RowsOf(handled);
    }

    /** `answer` is what the hardware call returns when it is made. */
    method Apply(c: Command, clock: Clock, answer: Outcome) returns (outcome: Outcome)
      requires Valid() && answer.Ok()
      modifies this
      ensures Valid() && (Now(), outcome) == Applied(old(Now()), c, clock, answer)
    {
      if c.id == "" {
        return Rejected("missing id");
      }
      EvictExpired(clock.evict);
      if Has(handled, c.id) {
        var i := Index(handled, c.id);
        outcome := handled[i].outcome;
        TouchedUnique(handled, i);
        handled := Touched(handled, i);
        return;
      }
      var keep := KeepUntil(c, clock.keep);
      var refusal := Refusal(c, clock.check);
      if refusal.Some? {
        outcome := refusal.value;
      } else {
        reached := reached + [c.id];
        outcome := answer;
      }
      Store(c.id, outcome, keep, clock.store);
    }
  }

  lemma AssignUnique(h: Cache, e: Entry)
    requires Unique(h) && e.outcome.Ok()
    ensures Unique(Assign(h, e))
  {}
}
