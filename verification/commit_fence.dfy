/**
 The commit-fenced cache protocol of appcache/cache.go as a state machine. Each step is one
 mutex-held section, one database commit, or one database read; they interleave freely.

 `committed` is what a loader would read from the committed database, per cache and key. It
 stands for the database: a commit may replace it by any other function, provided every slot
 whose loaded snapshot changes had one of its recorded dependencies declared.
 */
module CommitFence {
  import opened RecencyList

  type Id = nat

  datatype Slot = Slot(cache: nat, key: Key)

  datatype Snapshot = Snapshot(data: Data, deps: seq<Dependency>, expires: Expiry)

  /** A writer inside Commit: the database commit is still to return, or has returned. */
  datatype Writer = Begun(changes: set<Dependency>) | Finished(changes: set<Dependency>)

  /** What a load hands to its waiters. `carried` is the expiry it reports, `actual` the value's own. */
  datatype Result = Result(data: Data, carried: Expiry, actual: Expiry)

  datatype Flight =
    | Queued(slot: Slot, generation: nat)
    | Loading(slot: Slot, generation: nat)
    | Loaded(slot: Slot, generation: nat, snapshot: Snapshot)
    | Stale(slot: Slot, generation: nat)
    | Broken(slot: Slot, generation: nat)
    | Done(slot: Slot, generation: nat, result: Result)
  {
    predicate Running() {
      Queued? || Loading? || Loaded?
    }
  }

  datatype Reader =
    | Trying(slot: Slot)
    | Blocked(slot: Slot, channel: nat)
    | Missed(slot: Slot, generation: nat)
    | Waiting(slot: Slot, flight: Id)
    | Returned(slot: Slot, result: Result)
    | Failed(slot: Slot)
  {
    predicate InCall() {
      Trying? || Blocked? || Missed? || Waiting?
    }
  }

  datatype CacheState = CacheState(order: Order, maxEntries: nat, maxBytes: nat)

  datatype State = State(
    generation: nat,
    pending: nat,
    channels: nat,              // how many settled channels have been made
    closed: set<nat>,           // which of them are closed
    caches: seq<CacheState>,
    writers: map<Id, Writer>,
    flights: map<Id, Flight>,
    readers: map<Id, Reader>,
    committed: Slot -> Snapshot,
    now: int)

  datatype Step =
    | Fence(writer: Id, changes: set<Dependency>)
    | DbCommit(writer: Id, outcome: Slot -> Snapshot)
    | Settle(writer: Id)
    | BareCommit(outcome: Slot -> Snapshot)
    | Tick(instant: int, outcome: Slot -> Snapshot)
    | Call(reader: Id, slot: Slot)
    | Lookup(reader: Id)
    | Wake(reader: Id)
    | Join(reader: Id, flight: Id)
    | FlightStart(flight: Id)
    | FlightRead(flight: Id)
    | FlightFail(flight: Id)
    | FlightEnd(flight: Id)
    | Check(reader: Id)
    | GiveUp(reader: Id)
    | Leave(reader: Id)

  /** Every slot whose snapshot a commit changes had a recorded dependency among the declared changes. */
  ghost predicate Declared(before: Slot -> Snapshot, after: Slot -> Snapshot, changes: set<Dependency>) {
    forall slot: Slot :: after(slot) != before(slot) ==> exists d | d in before(slot).deps :: d in changes
  }

  /** Values with an expiry may drift without any commit; the others may not. */
  ghost predicate Drifts(before: Slot -> Snapshot, after: Slot -> Snapshot) {
    forall slot: Slot :: after(slot) != before(slot) ==> before(slot).expires.At?
  }

  function Invalidated(caches: seq<CacheState>, changes: set<Dependency>): (r: seq<CacheState>)
    ensures |r| == |caches|
    ensures forall i | 0 <= i < |caches| :: r[i] == caches[i].(order := Retained(caches[i].order, changes))
  {
    seq(|caches|, i requires 0 <= i < |caches| => caches[i].(order := Retained(caches[i].order, changes)))
  }

  ghost predicate Enabled(s: State, step: Step) {
    match step
    case Fence(w, changes) => w !in s.writers && changes != {}
    case DbCommit(w, outcome) =>
      w in s.writers && s.writers[w].Begun? && Declared(s.committed, outcome, s.writers[w].changes)
    case Settle(w) => w in s.writers && s.writers[w].Finished?
    case BareCommit(outcome) => Declared(s.committed, outcome, {})
    case Tick(instant, outcome) => s.now <= instant && Drifts(s.committed, outcome)
    case Call(r, slot) => r !in s.readers && slot.cache < |s.caches|
    case Lookup(r) => r in s.readers && s.readers[r].Trying? && s.readers[r].slot.cache < |s.caches|
    case Wake(r) => r in s.readers && s.readers[r].Blocked? && s.readers[r].channel in s.closed
    case Join(r, f) =>
      && r in s.readers && s.readers[r].Missed?
      && (f in s.flights ==>
            && s.flights[f].Running()
            && s.flights[f].slot == s.readers[r].slot
            && s.flights[f].generation == s.readers[r].generation)
    case FlightStart(f) => f in s.flights && s.flights[f].Queued? && s.flights[f].slot.cache < |s.caches|
    case FlightRead(f) => f in s.flights && s.flights[f].Loading?
    case FlightFail(f) => f in s.flights && (s.flights[f].Loading? || s.flights[f].Loaded?)
    case FlightEnd(f) => f in s.flights && s.flights[f].Loaded? && s.flights[f].slot.cache < |s.caches|
    case Check(r) =>
      && r in s.readers && s.readers[r].Waiting?
      && s.readers[r].flight in s.flights && !s.flights[s.readers[r].flight].Running()
    case GiveUp(r) => r in s.readers && s.readers[r].InCall()
    case Leave(r) => r in s.readers && !s.readers[r].InCall()
  }

  function WithOrder(s: State, cache: nat, order: Order): State
    requires cache < |s.caches|
  {
    s.(caches := s.caches[cache := s.caches[cache].(order := order)])
  }

  function Move(s: State, r: Id, reader: Reader): State {
    s.(readers := s.readers[r := reader])
  }

  function Advance(s: State, f: Id, flight: Flight): State {
    s.(flights := s.flights[f := flight])
  }

  /** One trip through the top of Get's loop, under the coordinator's mutex. */
  function LookupStep(s: State, r: Id, slot: Slot): State
    requires slot.cache < |s.caches|
  {
    var found := LookedUp(s.caches[slot.cache].order, slot.key, s.now);
    var s' := WithOrder(s, slot.cache, found.order);
    match found
    case Hit(_, e) => Move(s', r, Returned(slot, Result(e.data, e.expires, e.expires)))
    case Miss(_) =>
      if s.pending > 0 then Move(s', r, Blocked(slot, if s.channels > 0 then s.channels - 1 else 0))
      else Move(s', r, Missed(slot, s.generation))
  }

  /** The first section of the shared loader: give up, take a resident entry, or go and load. */
  function StartStep(s: State, f: Id, slot: Slot, generation: nat): State
    requires slot.cache < |s.caches|
  {
    if generation != s.generation then Advance(s, f, Stale(slot, generation))
    else
      var found := LookedUp(s.caches[slot.cache].order, slot.key, s.now);
      var s' := WithOrder(s, slot.cache, found.order);
      match found
      case Hit(_, e) => Advance(s', f, Done(slot, generation, Result(e.data, Never, e.expires)))
      case Miss(_) => Advance(s', f, Loading(slot, generation))
  }

  /** The last section of the shared loader: publish only if no commit has moved the generation. */
  function EndStep(s: State, f: Id, slot: Slot, generation: nat, snapshot: Snapshot): State
    requires slot.cache < |s.caches|
  {
    var c := s.caches[slot.cache];
    var done := Done(slot, generation, Result(snapshot.data, snapshot.expires, snapshot.expires));
    if generation == s.generation && snapshot.expires.Live(s.now) && |snapshot.data| <= c.maxBytes then
      var e := Entry(slot.key, snapshot.data, snapshot.deps, snapshot.expires);
      Advance(WithOrder(s, slot.cache, Published(c.order, e, c.maxEntries, c.maxBytes)), f, done)
    else
      Advance(s, f, done)
  }

  /** The reader's section after the shared load: accept the result or go round again. */
  function CheckStep(s: State, r: Id, slot: Slot, flight: Flight): State {
    match flight
    case Broken(_, _) => Move(s, r, Failed(slot))
    case Done(_, generation, result) =>
      if s.generation == generation && result.carried.Live(s.now) then Move(s, r, Returned(slot, result))
      else Move(s, r, Trying(slot))
    case _ => Move(s, r, Trying(slot))
  }

  ghost function Next(s: State, step: Step): State
    requires Enabled(s, step)
  {
    match step
    case Fence(w, changes) =>
      s.(generation := s.generation + 1, pending := s.pending + 1,
         channels := if s.pending == 0 then s.channels + 1 else s.channels,
         caches := Invalidated(s.caches, changes), writers := s.writers[w := Begun(changes)])
    case DbCommit(w, outcome) =>
      s.(committed := outcome, writers := s.writers[w := Finished(s.writers[w].changes)])
    case Settle(w) =>
      s.(generation := s.generation + 1, pending := if s.pending > 0 then s.pending - 1 else 0,
         closed := if s.pending == 1 && s.channels > 0 then s.closed + {s.channels - 1} else s.closed,
         caches := Invalidated(s.caches, s.writers[w].changes), writers := s.writers - {w})
    case BareCommit(outcome) => s.(committed := outcome)
    case Tick(instant, outcome) => s.(now := instant, committed := outcome)
    case Call(r, slot) => Move(s, r, Trying(slot))
    case Lookup(r) => LookupStep(s, r, s.readers[r].slot)
    case Wake(r) => Move(s, r, Trying(s.readers[r].slot))
    case Join(r, f) =>
      var reader := s.readers[r];
      var s' := if f in s.flights then s else Advance(s, f, Queued(reader.slot, reader.generation));
      Move(s', r, Waiting(reader.slot, f))
    case FlightStart(f) => StartStep(s, f, s.flights[f].slot, s.flights[f].generation)
    case FlightRead(f) =>
      Advance(s, f, Loaded(s.flights[f].slot, s.flights[f].generation, s.committed(s.flights[f].slot)))
    case FlightFail(f) => Advance(s, f, Broken(s.flights[f].slot, s.flights[f].generation))
    case FlightEnd(f) => EndStep(s, f, s.flights[f].slot, s.flights[f].generation, s.flights[f].snapshot)
    case Check(r) => CheckStep(s, r, s.readers[r].slot, s.flights[s.readers[r].flight])
    case GiveUp(r) => Move(s, r, Failed(s.readers[r].slot))
    case Leave(r) => s.(readers := s.readers - {r})
  }

  ghost predicate Init(s: State) {
    && s.generation == 0 && s.pending == 0 && s.channels == 0 && s.closed == {}
    && s.writers == map[] && s.flights == map[] && s.readers == map[]
    && (forall i | 0 <= i < |s.caches| ::
          s.caches[i].order == [] && s.caches[i].maxEntries >= 1 && s.caches[i].maxBytes >= 1)
  }

  // ---------------------------------------------------------------- invariant

  /** A resident entry depends on nothing a pending commit declared; if it never expires it is current. */
  ghost predicate Current(s: State, cache: nat, e: Entry) {
    && (forall w | w in s.writers :: !e.Touched(s.writers[w].changes))
    && (e.expires.Never? ==> s.committed(Slot(cache, e.key)) == Snapshot(e.data, e.deps, e.expires))
  }

  ghost predicate CachesCurrent(s: State) {
    forall i | 0 <= i < |s.caches| ::
      && DistinctKeys(s.caches[i].order)
      && s.caches[i].maxEntries >= 1 && s.caches[i].maxBytes >= 1
      && Fits(s.caches[i].order, s.caches[i].maxEntries, s.caches[i].maxBytes)
      && forall e | e in s.caches[i].order :: Current(s, i, e)
  }

  /** A generation that a miss has captured is quiet: while it lasts, no commit is pending. */
  ghost predicate Quiet(s: State, generation: nat) {
    && generation <= s.generation
    && (generation == s.generation ==> s.pending == 0)
  }

  ghost predicate FlightCurrent(s: State, flight: Flight) {
    && Quiet(s, flight.generation)
    && flight.slot.cache < |s.caches|
    && (flight.generation == s.generation ==>
          && (flight.Loaded? && flight.snapshot.expires.Never? ==> s.committed(flight.slot) == flight.snapshot)
          && (flight.Done? && flight.result.actual.Never? ==>
                s.committed(flight.slot).data == flight.result.data && s.committed(flight.slot).expires.Never?))
  }

  ghost predicate ReaderSane(s: State, reader: Reader) {
    && reader.slot.cache < |s.caches|
    && (reader.Blocked? ==> reader.channel < s.channels)
    && (reader.Missed? ==> Quiet(s, reader.generation))
    && (reader.Waiting? ==> reader.flight in s.flights && s.flights[reader.flight].slot == reader.slot)
  }

  /** Exactly the channels of finished waits are closed: all of them, or all but the newest. */
  ghost predicate ChannelsSane(s: State) {
    && (s.pending > 0 ==> s.channels > 0)
    && (forall c :: c in s.closed <==> 0 <= c < s.channels && !(s.pending > 0 && c == s.channels - 1))
  }

  ghost predicate Inv(s: State) {
    && s.pending == |s.writers|
    && ChannelsSane(s)
    && CachesCurrent(s)
    && (forall f | f in s.flights :: FlightCurrent(s, s.flights[f]))
    && (forall r | r in s.readers :: ReaderSane(s, s.readers[r]))
  }

  /** What a step that leaves commits alone has to keep: only caches, flights or readers move. */
  lemma QuietWriters(s: State)
    requires s.pending == |s.writers| && s.pending == 0
    ensures s.writers == map[]
  {
    assert |s.writers.Keys| == 0;
  }

  lemma InvalidatedCurrent(s: State, s': State, changes: set<Dependency>, w: Id)
    requires CachesCurrent(s)
    requires s'.caches == Invalidated(s.caches, changes) && s'.committed == s.committed
    requires s'.writers.Keys <= s.writers.Keys + {w}
    requires forall x | x in s'.writers ::
               s'.writers[x].changes == if x in s.writers then s.writers[x].changes else changes
    ensures CachesCurrent(s')
  {
    forall i | 0 <= i < |s'.caches|
      ensures DistinctKeys(s'.caches[i].order)
      ensures Fits(s'.caches[i].order, s.caches[i].maxEntries, s.caches[i].maxBytes)
      ensures forall e | e in s'.caches[i].order :: Current(s', i, e)
    {
      var order := s.caches[i].order;
      PurgedAll(order, changes, Keys(order));
      PurgedKeepsDistinct(order, changes, Keys(order));
      PurgedShrinks(order, changes, Keys(order));
      forall e | e in s'.caches[i].order ensures Current(s', i, e) {
        assert Current(s, i, e);
      }
    }
  }

  /** A new generation makes no claim about older flights and misses, so they stay sane. */
  lemma BumpKeepsSane(s: State, s': State)
    requires s'.generation == s.generation + 1 && s'.flights == s.flights && s'.readers == s.readers
    requires |s'.caches| == |s.caches| && s.channels <= s'.channels
    requires forall f | f in s.flights :: FlightCurrent(s, s.flights[f])
    requires forall r | r in s.readers :: ReaderSane(s, s.readers[r])
    ensures forall f | f in s'.flights :: FlightCurrent(s', s'.flights[f])
    ensures forall r | r in s'.readers :: ReaderSane(s', s'.readers[r])
  {
    forall f | f in s'.flights ensures FlightCurrent(s', s'.flights[f]) {
      assert FlightCurrent(s, s.flights[f]);
    }
    forall r | r in s'.readers ensures ReaderSane(s', s'.readers[r]) {
      assert ReaderSane(s, s.readers[r]);
    }
  }

  lemma FenceChannels(s: State, s': State)
    requires ChannelsSane(s) && s'.pending == s.pending + 1 && s'.closed == s.closed
    requires s'.channels == if s.pending == 0 then s.channels + 1 else s.channels
    ensures ChannelsSane(s')
  {
  }

  lemma SettleChannels(s: State, s': State)
    requires ChannelsSane(s) && s.pending > 0 && s'.pending == s.pending - 1 && s'.channels == s.channels
    requires s'.closed == if s.pending == 1 && s.channels > 0 then s.closed + {s.channels - 1} else s.closed
    ensures ChannelsSane(s')
  {
  }

  lemma WritersGrow(writers: map<Id, Writer>, w: Id, writer: Writer)
    requires w !in writers
    ensures |writers[w := writer]| == |writers| + 1
  {
    assert writers[w := writer].Keys == writers.Keys + {w};
  }

  lemma FenceKeepsInv(s: State, w: Id, changes: set<Dependency>)
    requires Inv(s) && Enabled(s, Fence(w, changes))
    ensures Inv(Next(s, Fence(w, changes)))
  {
    hide CachesCurrent, FlightCurrent, ReaderSane, ChannelsSane;
    var s' := Next(s, Fence(w, changes));
    InvalidatedCurrent(s, s', changes, w);
    assert s'.writers.Keys == s.writers.Keys + {w};
    WritersGrow(s.writers, w, Begun(changes));
    FenceChannels(s, s');
    BumpKeepsSane(s, s');
  }

  lemma SettleKeepsInv(s: State, w: Id)
    requires Inv(s) && Enabled(s, Settle(w))
    ensures Inv(Next(s, Settle(w)))
  {
    hide CachesCurrent, FlightCurrent, ReaderSane, ChannelsSane;
    var s' := Next(s, Settle(w));
    assert s.writers.Keys == s'.writers.Keys + {w};
    InvalidatedCurrent(s, s', s.writers[w].changes, w);
    SettleChannels(s, s');
    BumpKeepsSane(s, s');
  }

  /** A commit cannot reach a resident entry: the entry's dependencies avoid what the commit declared. */
  lemma DbCommitKeepsInv(s: State, w: Id, outcome: Slot -> Snapshot)
    requires Inv(s) && Enabled(s, DbCommit(w, outcome))
    ensures Inv(Next(s, DbCommit(w, outcome)))
  {
    var s' := Next(s, DbCommit(w, outcome));
    assert s'.writers.Keys == s.writers.Keys;
    forall i, e | 0 <= i < |s.caches| && e in s.caches[i].order ensures Current(s', i, e) {
      assert Current(s, i, e);
      assert !e.Touched(s.writers[w].changes);
    }
    if s.pending == 0 { QuietWriters(s); }
  }

  lemma DriftKeepsInv(s: State, step: Step)
    requires Inv(s) && Enabled(s, step) && (step.Tick? || step.BareCommit?)
    ensures Inv(Next(s, step))
  {
    var s' := Next(s, step);
    forall i, e | 0 <= i < |s.caches| && e in s.caches[i].order ensures Current(s', i, e) {
      assert Current(s, i, e);
    }
  }

  /** Replacing one cache's list by current entries only keeps every cache current. */
  lemma ReorderKeepsCurrent(s: State, cache: nat, order: Order)
    requires Inv(s) && cache < |s.caches|
    requires DistinctKeys(order) && Fits(order, s.caches[cache].maxEntries, s.caches[cache].maxBytes)
    requires forall e | e in order :: Current(s, cache, e)
    ensures Inv(WithOrder(s, cache, order))
  {
    var s' := WithOrder(s, cache, order);
    forall i, e | 0 <= i < |s'.caches| && e in s'.caches[i].order ensures Current(s', i, e) {
      assert Current(s, i, e);
    }
  }

  lemma LookedUpCurrent(s: State, slot: Slot)
    requires Inv(s) && slot.cache < |s.caches|
    ensures var found := LookedUp(s.caches[slot.cache].order, slot.key, s.now);
            && Inv(WithOrder(s, slot.cache, found.order))
            && (found.Hit? ==> Current(s, slot.cache, found.entry) && found.entry.key == slot.key
                               && found.entry.expires.Live(s.now))
  {
    hide Without, TotalBytes, Retained, Fitted;
    var order := s.caches[slot.cache].order;
    if exists x :: x in order && x.key == slot.key {
      var e := EntryOf(order, slot.key);
      assert Current(s, slot.cache, e);
      WithoutKeepsDistinct(order, slot.key);
      WithoutPresent(order, e);
      var rest := Without(order, slot.key);
      FrontBytes(e, rest);
      ReorderKeepsCurrent(s, slot.cache, rest);
      ReorderKeepsCurrent(s, slot.cache, [e] + rest);
    } else {
      ReorderKeepsCurrent(s, slot.cache, order);
    }
  }

  lemma MoveKeepsInv(s: State, r: Id, reader: Reader)
    requires Inv(s) && ReaderSane(s, reader)
    ensures Inv(Move(s, r, reader))
  {
    var s' := Move(s, r, reader);
    forall i, e | 0 <= i < |s'.caches| && e in s'.caches[i].order ensures Current(s', i, e) {
      assert Current(s, i, e);
    }
  }

  lemma AdvanceKeepsInv(s: State, f: Id, flight: Flight)
    requires Inv(s) && FlightCurrent(s, flight)
    requires f in s.flights ==> s.flights[f].slot == flight.slot
    ensures Inv(Advance(s, f, flight))
  {
    var s' := Advance(s, f, flight);
    forall i, e | 0 <= i < |s'.caches| && e in s'.caches[i].order ensures Current(s', i, e) {
      assert Current(s, i, e);
    }
    forall r | r in s'.readers ensures ReaderSane(s', s'.readers[r]) {
      assert ReaderSane(s, s.readers[r]);
    }
  }

  lemma LookupKeepsInv(s: State, r: Id)
    requires Inv(s) && Enabled(s, Lookup(r))
    ensures Inv(Next(s, Lookup(r)))
  {
    var slot := s.readers[r].slot;
    LookedUpCurrent(s, slot);
    var found := LookedUp(s.caches[slot.cache].order, slot.key, s.now);
    var s1 := WithOrder(s, slot.cache, found.order);
    MoveKeepsInv(s1, r, Next(s, Lookup(r)).readers[r]);
  }

  lemma StartKeepsInv(s: State, f: Id)
    requires Inv(s) && Enabled(s, FlightStart(f))
    ensures Inv(Next(s, FlightStart(f)))
  {
    var flight := s.flights[f];
    assert FlightCurrent(s, flight);
    if flight.generation != s.generation {
      AdvanceKeepsInv(s, f, Stale(flight.slot, flight.generation));
    } else {
      LookedUpCurrent(s, flight.slot);
      var found := LookedUp(s.caches[flight.slot.cache].order, flight.slot.key, s.now);
      var s1 := WithOrder(s, flight.slot.cache, found.order);
      AdvanceKeepsInv(s1, f, Next(s, FlightStart(f)).flights[f]);
    }
  }

  lemma EndKeepsInv(s: State, f: Id)
    requires Inv(s) && Enabled(s, FlightEnd(f))
    ensures Inv(Next(s, FlightEnd(f)))
  {
    var flight := s.flights[f];
    assert FlightCurrent(s, flight);
    var slot, snapshot, c := flight.slot, flight.snapshot, s.caches[flight.slot.cache];
    var done := Done(slot, flight.generation, Result(snapshot.data, snapshot.expires, snapshot.expires));
    if flight.generation == s.generation && snapshot.expires.Live(s.now) && |snapshot.data| <= c.maxBytes {
      var e := Entry(slot.key, snapshot.data, snapshot.deps, snapshot.expires);
      QuietWriters(s);
      assert slot == Slot(slot.cache, e.key);
      assert Current(s, slot.cache, e);
      PublishKeepsNewest(c.order, e, c.maxEntries, c.maxBytes);
      var order := Published(c.order, e, c.maxEntries, c.maxBytes);
      ReorderKeepsCurrent(s, slot.cache, order);
      AdvanceKeepsInv(WithOrder(s, slot.cache, order), f, done);
    } else {
      AdvanceKeepsInv(s, f, done);
    }
  }

  lemma JoinKeepsInv(s: State, r: Id, f: Id)
    requires Inv(s) && Enabled(s, Join(r, f))
    ensures Inv(Next(s, Join(r, f)))
  {
    var reader := s.readers[r];
    assert ReaderSane(s, reader);
    if f in s.flights {
      MoveKeepsInv(s, r, Waiting(reader.slot, f));
    } else {
      var queued := Queued(reader.slot, reader.generation);
      AdvanceKeepsInv(s, f, queued);
      MoveKeepsInv(Advance(s, f, queued), r, Waiting(reader.slot, f));
    }
  }

  lemma FlightMovesKeepInv(s: State, step: Step)
    requires Inv(s) && Enabled(s, step) && (step.FlightRead? || step.FlightFail?)
    ensures Inv(Next(s, step))
  {
    var f := step.flight;
    assert FlightCurrent(s, s.flights[f]);
    AdvanceKeepsInv(s, f, Next(s, step).flights[f]);
  }

  lemma ReaderMovesKeepInv(s: State, step: Step)
    requires Inv(s) && Enabled(s, step) && (step.Call? || step.Wake? || step.Check? || step.GiveUp?)
    ensures Inv(Next(s, step))
  {
    var r := step.reader;
    if r in s.readers { assert ReaderSane(s, s.readers[r]); }
    MoveKeepsInv(s, r, Next(s, step).readers[r]);
  }

  lemma LeaveKeepsInv(s: State, r: Id)
    requires Inv(s) && Enabled(s, Leave(r))
    ensures Inv(Next(s, Leave(r)))
  {
    var s' := Next(s, Leave(r));
    forall i, e | 0 <= i < |s'.caches| && e in s'.caches[i].order ensures Current(s', i, e) {
      assert Current(s, i, e);
    }
  }

  /** Every step keeps the invariant. */
  lemma StepKeepsInv(s: State, step: Step)
    requires Inv(s) && Enabled(s, step)
    ensures Inv(Next(s, step))
  {
    hide Inv, Enabled, Next;
    match step
    case Fence(w, changes) => FenceKeepsInv(s, w, changes);
    case DbCommit(w, outcome) => DbCommitKeepsInv(s, w, outcome);
    case Settle(w) => SettleKeepsInv(s, w);
    case BareCommit(_) => DriftKeepsInv(s, step);
    case Tick(_, _) => DriftKeepsInv(s, step);
    case Lookup(r) => LookupKeepsInv(s, r);
    case Join(r, f) => JoinKeepsInv(s, r, f);
    case FlightStart(f) => StartKeepsInv(s, f);
    case FlightEnd(f) => EndKeepsInv(s, f);
    case FlightRead(_) => FlightMovesKeepInv(s, step);
    case FlightFail(_) => FlightMovesKeepInv(s, step);
    case Leave(r) => LeaveKeepsInv(s, r);
    case _ => ReaderMovesKeepInv(s, step);
  }

  // ---------------------------------------------------------------- runs

  ghost predicate Run(trace: seq<State>, steps: seq<Step>) {
    && |trace| == |steps| + 1
    && Init(trace[0])
    && forall i | 0 <= i < |steps| :: Enabled(trace[i], steps[i]) && trace[i + 1] == Next(trace[i], steps[i])
  }

  lemma {:induction false} RunKeepsInv(trace: seq<State>, steps: seq<Step>, i: nat)
    requires Run(trace, steps) && i < |trace|
    ensures Inv(trace[i])
    decreases i
  {
    if i > 0 {
      RunKeepsInv(trace, steps, i - 1);
      StepKeepsInv(trace[i - 1], steps[i - 1]);
    }
  }

  /** The atomic moment of a returning Get: at that step the returned value is the committed one. */
  lemma AcceptedIsCurrent(s: State, r: Id)
    requires Inv(s) && Enabled(s, Check(r)) && Next(s, Check(r)).readers[r].Returned?
    ensures var returned := Next(s, Check(r)).readers[r];
            && returned.slot == s.readers[r].slot
            && (returned.result.actual.Never? ==> s.committed(returned.slot).data == returned.result.data)
  {
    assert ReaderSane(s, s.readers[r]);
    assert FlightCurrent(s, s.flights[s.readers[r].flight]);
  }

  lemma ReturnIsCurrent(s: State, step: Step, r: Id)
    requires Inv(s) && Enabled(s, step)
    requires r in s.readers && s.readers[r].InCall()
    requires r in Next(s, step).readers && Next(s, step).readers[r].Returned?
    ensures var returned := Next(s, step).readers[r];
            && returned.slot == s.readers[r].slot
            && (returned.result.actual.Never? ==> s.committed(returned.slot).data == returned.result.data)
  {
    match step
    case Lookup(x) =>
      if x == r { LookedUpCurrent(s, s.readers[r].slot); }
    case Check(x) =>
      if x == r { AcceptedIsCurrent(s, r); }
    case _ =>
  }

  lemma StepKeepsCallSlot(s: State, step: Step, r: Id)
    requires Enabled(s, step) && r in s.readers && s.readers[r].InCall()
    ensures r in Next(s, step).readers && Next(s, step).readers[r].slot == s.readers[r].slot
  {
  }

  /** Reader `r` calls Get for `slot` at step `call` and is still inside that call before step `ret`. */
  ghost predicate InOneCall(trace: seq<State>, steps: seq<Step>, r: Id, slot: Slot, call: nat, ret: nat) {
    && call < ret < |steps| && |trace| == |steps| + 1
    && steps[call] == Call(r, slot)
    && forall m | call < m <= ret :: r in trace[m].readers && trace[m].readers[r].InCall()
  }

  lemma CallTakesSlot(s: State, r: Id, slot: Slot)
    requires Enabled(s, Call(r, slot))
    ensures r in Next(s, Call(r, slot)).readers && Next(s, Call(r, slot)).readers[r].slot == slot
  {
  }

  lemma {:induction false} CallKeepsSlot(trace: seq<State>, steps: seq<Step>, r: Id, slot: Slot, call: nat, ret: nat)
    requires Run(trace, steps) && InOneCall(trace, steps, r, slot, call, ret)
    ensures trace[ret].readers[r].slot == slot
    decreases ret
  {
    hide Next, Enabled, Init;
    if call + 1 == ret {
      CallTakesSlot(trace[call], r, slot);
    } else {
      assert InOneCall(trace, steps, r, slot, call, ret - 1);
      CallKeepsSlot(trace, steps, r, slot, call, ret - 1);
      StepKeepsCallSlot(trace[ret - 1], steps[ret - 1], r);
      assert trace[ret - 1 + 1] == Next(trace[ret - 1], steps[ret - 1]);
    }
  }

  /**
   Linearizable reads. Over every interleaving of commits, loads, lookups, failures and clock
   ticks, a value without an expiry that Get returns is what the loader would have read from
   the committed database at some moment between the call and the return.
   */
  lemma LinearizableReads(trace: seq<State>, steps: seq<Step>, r: Id, slot: Slot, call: nat, ret: nat)
    requires Run(trace, steps) && InOneCall(trace, steps, r, slot, call, ret)
    requires r in trace[ret + 1].readers && trace[ret + 1].readers[r].Returned?
    ensures var returned := trace[ret + 1].readers[r];
            && returned.slot == slot
            && (returned.result.actual.Never? ==>
                  exists m :: call < m <= ret && trace[m].committed(slot).data == returned.result.data)
  {
    RunKeepsInv(trace, steps, ret);
    CallKeepsSlot(trace, steps, r, slot, call, ret);
    ReturnIsCurrent(trace[ret], steps[ret], r);
    assert trace[ret + 1] == Next(trace[ret], steps[ret]);
  }

  /** Once the pending commits have settled, no reader is left waiting on an open channel. */
  lemma SettledReadersWake(trace: seq<State>, steps: seq<Step>, i: nat, r: Id)
    requires Run(trace, steps) && i < |trace|
    requires r in trace[i].readers && trace[i].readers[r].Blocked?
    ensures trace[i].pending == 0 ==> Enabled(trace[i], Wake(r))
    ensures trace[i].readers[r].channel !in trace[i].closed ==> trace[i].writers != map[]
  {
    RunKeepsInv(trace, steps, i);
    assert ReaderSane(trace[i], trace[i].readers[r]);
  }

  /** Settling closes a channel only once: closing a closed channel would panic. */
  lemma SettleClosesOpenChannel(trace: seq<State>, steps: seq<Step>, i: nat)
    requires Run(trace, steps) && i < |steps| && steps[i].Settle?
    ensures trace[i].pending >= 1
    ensures trace[i].pending == 1 ==> trace[i].channels >= 1 && trace[i].channels - 1 !in trace[i].closed
  {
    RunKeepsInv(trace, steps, i);
    var w := steps[i].writer;
    assert w in trace[i].writers;
    assert |trace[i].writers.Keys| >= 1 by {
      assert trace[i].writers.Keys == (trace[i].writers.Keys - {w}) + {w};
    }
  }

  // ---------------------------------------------------------------- expiring values

  /** The re-check at the start of a flight finds a resident entry (it reports no expiry to the flight's waiters). */
  ghost predicate StartHits(s: State, f: Id) {
    && Enabled(s, FlightStart(f))
    && s.flights[f].generation == s.generation
    && LookedUp(s.caches[s.flights[f].slot.cache].order, s.flights[f].slot.key, s.now).Hit?
  }

  ghost predicate HitsAt(trace: seq<State>, steps: seq<Step>, k: nat, f: Id) {
    k < |steps| && k < |trace| && steps[k] == FlightStart(f) && StartHits(trace[k], f)
  }

  ghost function HitEntry(s: State, f: Id): Entry
    requires StartHits(s, f)
  {
    LookedUp(s.caches[s.flights[f].slot.cache].order, s.flights[f].slot.key, s.now).entry
  }

  /** The result of a flight that took a resident entry, and of no other. */
  ghost predicate TookEntry(flight: Flight, e: Entry) {
    flight.Done? && flight.result == Result(e.data, Never, e.expires)
  }

  lemma FlightStep(s: State, step: Step, f: Id)
    requires Enabled(s, step)
    ensures f in s.flights && !s.flights[f].Running() ==>
              f in Next(s, step).flights && Next(s, step).flights[f] == s.flights[f]
    ensures step == FlightStart(f) && StartHits(s, f) ==>
              f in Next(s, step).flights && TookEntry(Next(s, step).flights[f], HitEntry(s, f))
    ensures f in Next(s, step).flights && Next(s, step).flights[f].Done? && !(f in s.flights && s.flights[f].Done?) ==>
              var result := Next(s, step).flights[f].result;
              (step == FlightStart(f) && StartHits(s, f)) || result.carried == result.actual
  {
    hide LookedUp, Published, Invalidated;
  }

  ghost predicate OriginKnown(trace: seq<State>, steps: seq<Step>, i: nat, f: Id)
    requires i < |trace|
  {
    && (forall k: nat | k < i && HitsAt(trace, steps, k, f) ::
          f in trace[i].flights && TookEntry(trace[i].flights[f], HitEntry(trace[k], f)))
    && (f in trace[i].flights && trace[i].flights[f].Done? ==>
          || trace[i].flights[f].result.carried == trace[i].flights[f].result.actual
          || exists k: nat :: k < i && HitsAt(trace, steps, k, f))
  }

  lemma OriginStep(trace: seq<State>, steps: seq<Step>, i: nat, f: Id)
    requires 0 < i < |trace| && i <= |steps| && OriginKnown(trace, steps, i - 1, f)
    requires Enabled(trace[i - 1], steps[i - 1]) && trace[i] == Next(trace[i - 1], steps[i - 1])
    ensures OriginKnown(trace, steps, i, f)
  {
    hide Next, Enabled, StartHits, HitEntry;
    FlightStep(trace[i - 1], steps[i - 1], f);
    forall k: nat | k < i && HitsAt(trace, steps, k, f)
      ensures f in trace[i].flights && TookEntry(trace[i].flights[f], HitEntry(trace[k], f))
    {
      if k < i - 1 { assert TookEntry(trace[i - 1].flights[f], HitEntry(trace[k], f)); }
    }
    if f in trace[i].flights && trace[i].flights[f].Done? &&
        trace[i].flights[f].result.carried != trace[i].flights[f].result.actual {
      if f in trace[i - 1].flights && trace[i - 1].flights[f].Done? {
        var k: nat :| k < i - 1 && HitsAt(trace, steps, k, f);
      } else {
        assert HitsAt(trace, steps, i - 1, f);
      }
    }
  }

  /** Before step i, a finished flight reports its value's own expiry, or it took an entry when it started. */
  lemma {:induction false} FlightOrigin(trace: seq<State>, steps: seq<Step>, i: nat, f: Id)
    requires Run(trace, steps) && i < |trace|
    ensures OriginKnown(trace, steps, i, f)
    decreases i
  {
    if i > 0 {
      hide Next, Enabled, OriginKnown;
      FlightOrigin(trace, steps, i - 1, f);
      OriginStep(trace, steps, i, f);
    }
  }

  /** Step i hands a reader a value that has expired by then. */
  ghost predicate ReturnsExpired(s: State, r: Id, s': State) {
    r in s'.readers && s'.readers[r].Returned? && !s'.readers[r].result.actual.Live(s.now)
  }

  /** Flight f took an entry, when it started, whose expiry has passed by `now`. */
  ghost predicate TookExpired(trace: seq<State>, steps: seq<Step>, i: nat, f: Id, now: int) {
    exists k: nat :: k < i && HitsAt(trace, steps, k, f)
                && HitEntry(trace[k], f).expires.At? && HitEntry(trace[k], f).expires.instant <= now
  }

  /**
   When Get returns an expired value. A lookup never does. The check after a shared load does so in
   exactly one case: nothing was committed since the flight's generation, and that flight, when it
   started, found the value resident with an expiry that has passed since.
   */
  lemma AcceptedExpiry(trace: seq<State>, steps: seq<Step>, i: nat, r: Id)
    requires Run(trace, steps) && i < |steps|
    ensures steps[i] == Lookup(r) ==> !ReturnsExpired(trace[i], r, trace[i + 1])
    ensures steps[i] == Check(r) ==>
              var f := trace[i].readers[r].flight;
              (ReturnsExpired(trace[i], r, trace[i + 1]) <==>
                 trace[i].flights[f].generation == trace[i].generation && TookExpired(trace, steps, i, f, trace[i].now))
  {
    var s := trace[i];
    assert Enabled(s, steps[i]) && trace[i + 1] == Next(s, steps[i]);
    if steps[i] == Lookup(r) {
      LookupIsLive(s, r);
    } else if steps[i] == Check(r) {
      FlightOrigin(trace, steps, i, s.readers[r].flight);
      CheckedExpiry(trace, steps, i, r);
    }
  }

  lemma LookupIsLive(s: State, r: Id)
    requires Enabled(s, Lookup(r))
    ensures !ReturnsExpired(s, r, Next(s, Lookup(r)))
  {
  }

  lemma CheckedExpiry(trace: seq<State>, steps: seq<Step>, i: nat, r: Id)
    requires i < |steps| && i < |trace| && Enabled(trace[i], Check(r))
    requires OriginKnown(trace, steps, i, trace[i].readers[r].flight)
    ensures var f := trace[i].readers[r].flight;
            ReturnsExpired(trace[i], r, Next(trace[i], Check(r))) <==>
              trace[i].flights[f].generation == trace[i].generation && TookExpired(trace, steps, i, f, trace[i].now)
  {
    hide StartHits, HitEntry;
    var s := trace[i];
    var f := s.readers[r].flight;
    if TookExpired(trace, steps, i, f, s.now) {
      var k: nat :| k < i && HitsAt(trace, steps, k, f)
               && HitEntry(trace[k], f).expires.At? && HitEntry(trace[k], f).expires.instant <= s.now;
      assert TookEntry(s.flights[f], HitEntry(trace[k], f));
    }
    if ReturnsExpired(s, r, Next(s, Check(r))) {
      assert s.flights[f].result.carried != s.flights[f].result.actual;
      var k: nat :| k < i && HitsAt(trace, steps, k, f);
      assert TookEntry(s.flights[f], HitEntry(trace[k], f));
    }
  }

  ghost function ExpiryValue(): Slot -> Snapshot {
    _ => Snapshot("v", ["d"], At(10))
  }

  ghost function ExpiryStep(n: nat): Step {
    var slot := Slot(0, "k");
    match n
    case 0 => Call(1, slot)
    case 1 => Lookup(1)
    case 2 => Call(2, slot)
    case 3 => Lookup(2)
    case 4 => Join(1, 7)
    case 5 => FlightStart(7)
    case 6 => FlightRead(7)
    case 7 => FlightEnd(7)
    case 8 => Join(2, 8)
    case 9 => FlightStart(8)
    case 10 => Tick(20, ExpiryValue())
    case _ => Check(2)
  }

  ghost function ExpiryReaders(n: nat): map<Id, Reader> {
    var slot := Slot(0, "k");
    match n
    case 0 => map[]
    case 1 => map[1 := Trying(slot)]
    case 2 => map[1 := Missed(slot, 0)]
    case 3 => map[1 := Missed(slot, 0), 2 := Trying(slot)]
    case 4 => map[1 := Missed(slot, 0), 2 := Missed(slot, 0)]
    case 5 => map[1 := Waiting(slot, 7), 2 := Missed(slot, 0)]
    case 6 => map[1 := Waiting(slot, 7), 2 := Missed(slot, 0)]
    case 7 => map[1 := Waiting(slot, 7), 2 := Missed(slot, 0)]
    case 8 => map[1 := Waiting(slot, 7), 2 := Missed(slot, 0)]
    case 12 => map[1 := Waiting(slot, 7), 2 := Returned(slot, Result("v", Never, At(10)))]
    case _ => map[1 := Waiting(slot, 7), 2 := Waiting(slot, 8)]
  }

  ghost function ExpiryFlights(n: nat): map<Id, Flight> {
    var slot, done := Slot(0, "k"), Done(Slot(0, "k"), 0, Result("v", At(10), At(10)));
    if n < 5 then map[]
    else if n == 5 then map[7 := Queued(slot, 0)]
    else if n == 6 then map[7 := Loading(slot, 0)]
    else if n == 7 then map[7 := Loaded(slot, 0, Snapshot("v", ["d"], At(10)))]
    else if n == 8 then map[7 := done]
    else if n == 9 then map[7 := done, 8 := Queued(slot, 0)]
    else map[7 := done, 8 := Done(slot, 0, Result("v", Never, At(10)))]
  }

  ghost function ExpiryScene(n: nat): State {
    State(0, 0, 0, {}, [CacheState(if n < 8 then [] else [Entry("k", "v", ["d"], At(10))], 1, 1)],
          map[], ExpiryFlights(n), ExpiryReaders(n), ExpiryValue(), if n < 11 then 0 else 20)
  }

  lemma ExpirySceneMisses(n: nat)
    requires n < 5
    ensures Enabled(ExpiryScene(n), ExpiryStep(n)) && Next(ExpiryScene(n), ExpiryStep(n)) == ExpiryScene(n + 1)
  {
    var s := ExpiryScene(n);
    assert s.caches[0 := s.caches[0]] == s.caches;
  }

  lemma ExpirySceneLoads(n: nat)
    requires 5 <= n < 8
    ensures Enabled(ExpiryScene(n), ExpiryStep(n)) && Next(ExpiryScene(n), ExpiryStep(n)) == ExpiryScene(n + 1)
  {
    var s := ExpiryScene(n);
    var entry := Entry("k", "v", ["d"], At(10));
    FrontBytes(entry, []);
    assert [entry] + [] == [entry];
    assert Published([], entry, 1, 1) == [entry];
    assert s.caches[0 := s.caches[0]] == s.caches;
    assert s.caches[0 := CacheState([entry], 1, 1)] == [CacheState([entry], 1, 1)];
  }

  lemma ExpirySceneJoins(n: nat)
    requires 8 <= n < 10
    ensures Enabled(ExpiryScene(n), ExpiryStep(n)) && Next(ExpiryScene(n), ExpiryStep(n)) == ExpiryScene(n + 1)
  {
    var s := ExpiryScene(n);
    var entry := Entry("k", "v", ["d"], At(10));
    assert Without([entry], "k") == [];
    assert entry in [entry] && [entry] + [] == [entry];
    assert LookedUp([entry], "k", 0) == Hit([entry], entry);
    assert s.caches[0 := CacheState([entry], 1, 1)] == s.caches;
  }

  lemma ExpirySceneReturns(n: nat)
    requires 10 <= n < 12
    ensures Enabled(ExpiryScene(n), ExpiryStep(n)) && Next(ExpiryScene(n), ExpiryStep(n)) == ExpiryScene(n + 1)
  {
    hide LookedUp, Published, Retained;
  }

  /**
   The source lets that happen: reader 2 misses, another flight publishes the value, reader 2's
   own flight finds it resident, and the clock passes the expiry before reader 2's check.
   */
  lemma ExpiredValueReturned()
    ensures exists trace: seq<State>, steps: seq<Step> ::
              && Run(trace, steps)
              && 2 in trace[|steps|].readers && trace[|steps|].readers[2].Returned?
              && !trace[|steps|].readers[2].result.actual.Live(trace[|steps|].now)
  {
    hide Next, Enabled;
    var trace, steps := seq(13, n requires 0 <= n => ExpiryScene(n)), seq(12, n requires 0 <= n => ExpiryStep(n));
    forall n | 0 <= n < 12 ensures Enabled(trace[n], steps[n]) && trace[n + 1] == Next(trace[n], steps[n]) {
      if n < 5 { ExpirySceneMisses(n); }
      else if n < 8 { ExpirySceneLoads(n); }
      else if n < 10 { ExpirySceneJoins(n); }
      else { ExpirySceneReturns(n); }
    }
    assert Run(trace, steps);
    assert trace[12].readers == ExpiryReaders(12);
  }
}
