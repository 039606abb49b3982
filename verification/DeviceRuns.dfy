/** Runs of the command dispatcher: deliveries, expiries and restarts. */
module DeviceRuns {
  import opened Wrappers
  import opened DeviceCommands

  /** A delivery, with what the hardware answers if asked; or a restart between
      two calls, reloading the file. */
  datatype Event = Deliver(c: Command, clock: Clock, answer: Outcome) | Restart(at: int)

  /** The dispatcher, what its file holds, the latest entry stored for each id,
      and the time. */
  datatype World = World(s: State, saved: Cache, last: map<string, Entry>, now: int)

  function Boot(now: int): World { World(State([], [], []), [], map[], now) }

  predicate Possible(w: World, e: Event) {
    match e
    case Deliver(_, clock, answer) => w.now <= clock.evict && clock.Forward() && answer.Ok()
    case Restart(at) => w.now <= at
  }

  predicate Stores(s: State, c: Command, clock: Clock) { c.id != "" && !Cached(s, c, clock) }

  function Moved(w: World, e: Event): World {
    match e
    case Restart(at) => w.(s := w.s.(handled := Loaded(w.s.file, at + KEPT_WITHOUT_EXPIRY)), now := at)
    case Deliver(c, clock, answer) =>
      var next := w.(s := Applied(w.s, c, clock, answer).0, now := clock.store);
      if Stores(w.s, c, clock) then
        next.(saved := next.s.handled, last := w.last[c.id := Remembered(c, clock, answer)])
      else next
  }

  /** Until an id's latest entry expires, it is in memory and in the file, and
      neither holds anything but latest entries. */
  ghost predicate Good(w: World) {
    && Unique(w.s.handled) && Unique(w.saved) && w.s.file == RowsOf(w.saved)
    && (forall id :: id in w.last ==> w.last[id].id == id)
    && (forall id :: id in w.last && w.now < w.last[id].expires ==> w.last[id] in w.s.handled && w.last[id] in w.saved)
    && (forall e :: e in w.s.handled ==> e.id in w.last && w.last[e.id] == e)
    && (forall e :: e in w.saved ==> e.id in w.last && w.last[e.id] == e)
    && (forall id :: id in w.s.reached ==> id in w.last)
  }

  lemma HasIs(h: Cache, id: string)
    ensures Has(h, id) <==> exists e :: e in h && e.id == id
  {
    if Has(h, id) { assert h[Index(h, id)] in h; }
  }

  /** An id is cached exactly while its latest entry has not expired. */
  lemma CachedIff(w: World, c: Command, clock: Clock)
    requires Good(w) && w.now <= clock.evict
    ensures Cached(w.s, c, clock) <==> c.id in w.last && clock.evict < w.last[c.id].expires
    ensures Cached(w.s, c, clock) ==>
      var live := Live(w.s.handled, clock.evict); live[Index(live, c.id)] == w.last[c.id]
  {
    var live := Live(w.s.handled, clock.evict);
    HasIs(live, c.id);
    if c.id in w.last { LiveHolds(w.s.handled, clock.evict, w.last[c.id]); }
    if Cached(w.s, c, clock) {
      LiveHolds(w.s.handled, clock.evict, live[Index(live, c.id)]);
    }
  }

  lemma RestartGood(w: World, at: int)
    requires Good(w) && w.now <= at
    ensures Good(Moved(w, Restart(at)))
  {
    SaveLoad(w.saved, at + KEPT_WITHOUT_EXPIRY);
  }

  lemma CachedGood(w: World, c: Command, clock: Clock, answer: Outcome)
    requires Good(w) && Possible(w, Deliver(c, clock, answer)) && !Stores(w.s, c, clock)
    ensures Good(Moved(w, Deliver(c, clock, answer)))
  {
    if c.id != "" {
      var live := Live(w.s.handled, clock.evict);
      LiveUnique(w.s.handled, clock.evict);
      TouchedUnique(live, Index(live, c.id));
      forall e ensures e in live <==> e in w.s.handled && clock.evict < e.expires {
        LiveHolds(w.s.handled, clock.evict, e);
      }
    }
  }

  lemma StoredCache(h: Cache, e: Entry, first: int, second: int)
    requires Unique(h) && e.outcome.Ok() && first <= second && !Has(Live(h, first), e.id)
    ensures var r := Put(Live(Live(h, first), second), e);
      Unique(r) && forall x :: x in r <==> x == e || (x in h && second < x.expires)
  {
    var live := Live(Live(h, first), second);
    LiveUnique(h, first);
    LiveUnique(Live(h, first), second);
    forall x ensures x in live <==> x in h && second < x.expires {
      LiveHolds(Live(h, first), second, x);
      LiveHolds(h, first, x);
    }
    forall i | 0 <= i < |live| ensures live[i].id != e.id {
      LiveHolds(Live(h, first), second, live[i]);
      HasIs(Live(h, first), e.id);
    }
  }

  lemma StoredGood(w: World, c: Command, clock: Clock, answer: Outcome)
    requires Good(w) && Possible(w, Deliver(c, clock, answer)) && Stores(w.s, c, clock)
    ensures Good(Moved(w, Deliver(c, clock, answer)))
  {
    CachedIff(w, c, clock);
    StoredCache(w.s.handled, Remembered(c, clock, answer), clock.evict, clock.store);
  }

  lemma StaysGood(w: World, e: Event)
    requires Good(w) && Possible(w, e)
    ensures Good(Moved(w, e))
  {
    match e
    case Restart(at) => RestartGood(w, at);
    case Deliver(c, clock, answer) =>
      if Stores(w.s, c, clock) { StoredGood(w, c, clock, answer); } else { CachedGood(w, c, clock, answer); }
  }

  // ---- Main results ------------------------------------------------------------------

  /** Nothing is wrong with the command. */
  predicate Welcome(c: Command, now: int) {
    && c.unexpected.None? && (c.kind == Some("ph_calibrate") || c.kind == Some("rs485_config"))
    && c.expiry.At? && now < c.expiry.ms && c.payload.Some?
  }

  /** What can be wrong, in the order in which it is said. */
  predicate Wrong(c: Command, now: int, k: nat) {
    match k
    case 0 => c.unexpected.Some?
    case 1 => c.kind == None || c.kind == Some("")
    case 2 => c.kind != Some("ph_calibrate") && c.kind != Some("rs485_config")
    case 3 => c.expiry == Missing
    case 4 => c.expiry == Unusable
    case 5 => c.expiry.At? && c.expiry.ms <= now
    case 6 => c.payload == None
    case _ => false
  }

  function Complaint(c: Command, k: nat): string {
    match k
    case 0 => "unexpected field: " + if c.unexpected.Some? then c.unexpected.value else ""
    case 1 => "missing type"
    case 2 => "unknown type"
    case 3 => "missing expiresAt"
    case 4 => "expiresAt must be epoch-ms or ISO-8601"
    case 5 => "expired"
    case _ => "payload must be an object"
  }

  predicate FirstWrong(c: Command, now: int, k: nat) { Wrong(c, now, k) && forall j :: 0 <= j < k ==> !Wrong(c, now, j) }

  /** A refusal with this text, cut to 200 characters. */
  predicate Says(o: Outcome, text: string) {
    o == Outcome("rejected", None, o.message) && o.message <= text && |o.message| == if |text| < 200 then |text| else 200
  }

  lemma RefusedWelcome(c: Command, now: int)
    ensures Refusal(c, now).None? <==> Welcome(c, now)
  {}

  lemma ClipSays(text: string)
    ensures Says(Rejected(text), text)
  {}

  /** A command is refused with the first thing that is wrong with it. */
  lemma RefusalSays(c: Command, now: int, k: nat)
    requires FirstWrong(c, now, k)
    ensures Refusal(c, now).Some? && Says(Refusal(c, now).value, Complaint(c, k))
  {
    ClipSays(Complaint(c, k));
    WrongBefore(c, now, k);
  }

  lemma WrongBefore(c: Command, now: int, k: nat)
    requires FirstWrong(c, now, k)
    ensures Refusal(c, now) == Some(Rejected(Complaint(c, k)))
  {
    assert k > 0 ==> !Wrong(c, now, 0);
    assert k > 1 ==> !Wrong(c, now, 1);
    assert k > 2 ==> !Wrong(c, now, 2);
    assert k > 3 ==> !Wrong(c, now, 3);
    assert k > 4 ==> !Wrong(c, now, 4);
    assert k > 5 ==> !Wrong(c, now, 5);
  }

  /** Whether a delivery reaches the hardware. */
  lemma DeliveryReaches(w: World, c: Command, clock: Clock, answer: Outcome)
    requires Good(w) && Possible(w, Deliver(c, clock, answer)) && c.id != ""
    ensures var known := c.id in w.last && clock.evict < w.last[c.id].expires;
      Applied(w.s, c, clock, answer).0.reached
        == if !known && Welcome(c, clock.check) then w.s.reached + [c.id] else w.s.reached
  {
    CachedIff(w, c, clock);
    RefusedWelcome(c, clock.check);
  }

  /** What a delivery does, exactly. Until the latest entry of its id expires it
      returns that entry's outcome and touches nothing; from then on it reaches
      the hardware if and only if nothing is wrong with it, returns what the
      hardware answered or the first thing wrong, and is remembered until its
      own expiry, or a day without one. */
  lemma DeliveryExact(w: World, c: Command, clock: Clock, answer: Outcome)
    requires Good(w) && Possible(w, Deliver(c, clock, answer)) && c.id != ""
    ensures var (next, outcome) := Applied(w.s, c, clock, answer);
      var known := c.id in w.last && clock.evict < w.last[c.id].expires;
      && (known ==> outcome == w.last[c.id].outcome && next.file == w.s.file)
      && next.reached == (if !known && Welcome(c, clock.check) then w.s.reached + [c.id] else w.s.reached)
      && (!known && Welcome(c, clock.check) ==> outcome == answer)
      && (!known && !Welcome(c, clock.check) ==>
            exists k: nat :: FirstWrong(c, clock.check, k) && Says(outcome, Complaint(c, k)))
      && (!known ==>
            Entry(c.id, outcome, if c.expiry.At? then c.expiry.ms else clock.keep + 86_400_000) in next.handled
            && next.file == RowsOf(next.handled))
  {
    CachedIff(w, c, clock);
    DeliveryReaches(w, c, clock, answer);
    RefusedWelcome(c, clock.check);
    if !Welcome(c, clock.check) {
      var k := SomethingWrong(c, clock.check);
      RefusalSays(c, clock.check, k);
    }
  }

  /** Something is wrong with every command that is not welcome. */
  lemma SomethingWrong(c: Command, now: int) returns (k: nat)
    requires !Welcome(c, now)
    ensures FirstWrong(c, now, k)
  {
    k := if Wrong(c, now, 0) then 0 else if Wrong(c, now, 1) then 1 else if Wrong(c, now, 2) then 2
         else if Wrong(c, now, 3) then 3 else if Wrong(c, now, 4) then 4 else if Wrong(c, now, 5) then 5 else 6;
  }

  ghost predicate AllPossible(w: World, events: seq<Event>)
    decreases |events|
  {
    events == [] || (Possible(w, events[0]) && AllPossible(Moved(w, events[0]), events[1..]))
  }

  function Ran(w: World, events: seq<Event>): World
    decreases |events|
  {
    if events == [] then w else Ran(Moved(w, events[0]), events[1..])
  }

  /** The server never changes an id's `expiresAt`. */
  ghost predicate Steady(events: seq<Event>, expiry: string -> Expiry) {
    forall i :: 0 <= i < |events| && events[i].Deliver? ==> events[i].c.expiry == expiry(events[i].c.id)
  }

  /** What reached the hardware did so once, and is kept until it expires. */
  ghost predicate Once(w: World, expiry: string -> Expiry) {
    && Distinct(w.s.reached)
    && (forall id :: id in w.s.reached ==> id in w.last && expiry(id) == At(w.last[id].expires))
    && (forall id :: id in w.last && expiry(id).At? ==> w.last[id].expires == expiry(id).ms)
  }

  lemma OnceStays(w: World, e: Event, expiry: string -> Expiry)
    requires Good(w) && Possible(w, e) && Once(w, expiry) && Steady([e], expiry)
    ensures Once(Moved(w, e), expiry)
  {
    assert [e][0] == e;
    if e.Deliver? && e.c.id != "" {
      DeliveryReaches(w, e.c, e.clock, e.answer);
    }
  }

  /** Over any run of deliveries, redeliveries, expiries and restarts, each
      command id reaches the hardware at most once, if its expiry is steady. */
  lemma {:induction false} AtMostOnce(w: World, events: seq<Event>, expiry: string -> Expiry)
    requires Good(w) && Once(w, expiry) && AllPossible(w, events) && Steady(events, expiry)
    ensures Good(Ran(w, events)) && Once(Ran(w, events), expiry)
    decreases |events|
  {
    if events != [] {
      assert Steady([events[0]], expiry);
      StaysGood(w, events[0]);
      OnceStays(w, events[0], expiry);
      AtMostOnce(Moved(w, events[0]), events[1..], expiry);
    }
  }

  lemma FromBoot(now: int, events: seq<Event>, expiry: string -> Expiry)
    requires AllPossible(Boot(now), events) && Steady(events, expiry)
    ensures Distinct(Ran(Boot(now), events).s.reached)
  {
    AtMostOnce(Boot(now), events, expiry);
  }

  /** And needs it to be: a redelivery whose own expiry is later than the first
      one's, at a time between the two, reaches the hardware a second time. */
  lemma LaterExpiryReachesTwice(c: Command, later: Command, first: Clock, second: Clock, answer: Outcome)
    requires c.id != "" && c.expiry.At? && later == c.(expiry := later.expiry) && later.expiry.At?
    requires answer.Ok() && first.Forward() && second.Forward() && Welcome(c, first.check)
    requires first.store <= second.evict && c.expiry.ms <= second.evict && second.check < later.expiry.ms
    ensures AllPossible(Boot(first.evict), [Deliver(c, first, answer), Deliver(later, second, answer)])
    ensures Ran(Boot(first.evict), [Deliver(c, first, answer), Deliver(later, second, answer)]).s.reached == [c.id, c.id]
  {
    var w := Boot(first.evict);
    assert Good(w);
    var e1, e2 := Deliver(c, first, answer), Deliver(later, second, answer);
    StaysGood(w, e1);
    DeliveryReaches(w, c, first, answer);
    var one := Moved(w, e1);
    DeliveryReaches(one, later, second, answer);
    var two := Moved(one, e2);
    assert [e1, e2][1..] == [e2] && [e2][1..] == [];
    assert Ran(one, [e2]) == Ran(two, []);
  }
}
