/**
 What the read cache is for (appcache/cache.go): it hits whenever it can, a load serves the Gets after
 it, and what has to go is what was used longest ago.
 */
module CacheUses {
  import opened RecencyList
  import opened CommitFence

  datatype Option<+T> = None | Some(value: T)

  // ---------------------------------------------------------------- least recently used

  /** The entries are in the order of their last use, the latest in front. */
  ghost predicate Recent(order: Order, used: map<Key, int>) {
    && (forall i | 0 <= i < |order| :: order[i].key in used)
    && forall i, j | 0 <= i < j < |order| :: used[order[i].key] > used[order[j].key]
  }

  ghost predicate Newest(used: map<Key, int>, t: int) {
    forall k | k in used :: used[k] < t
  }

  lemma RecentFront(e: Entry, order: Order, used: map<Key, int>, t: int)
    requires Recent(order, used) && Newest(used, t) && forall i | 0 <= i < |order| :: order[i].key != e.key
    ensures Recent([e] + order, used[e.key := t])
  {
    var longer := [e] + order;
    assert forall i | 1 <= i < |longer| :: longer[i] == order[i - 1];
  }

  lemma RecentPrefix(order: Order, n: nat, used: map<Key, int>)
    requires Recent(order, used) && n <= |order|
    ensures Recent(order[..n], used)
  {
  }

  lemma {:induction false} RecentWithout(order: Order, key: Key, used: map<Key, int>)
    requires Recent(order, used)
    ensures Recent(Without(order, key), used)
    ensures forall i | 0 <= i < |Without(order, key)| :: Without(order, key)[i].key != key
  {
    if order != [] {
      RecentTail(order, used);
      RecentWithout(order[1..], key, used);
      var rest := Without(order[1..], key);
      forall i | 0 <= i < |rest| ensures used[order[0].key] > used[rest[i].key] {
        assert rest[i] in order[1..];
      }
    }
  }

  lemma RecentTail(order: Order, used: map<Key, int>)
    requires order != [] && Recent(order, used)
    ensures order[0].key in used
    ensures Recent(order[1..], used) && forall e | e in order[1..] :: e.key in used && used[order[0].key] > used[e.key]
  {
    assert forall i | 0 <= i < |order| - 1 :: order[1..][i] == order[i + 1];
  }

  lemma {:induction false} RecentRetained(order: Order, changed: set<Dependency>, used: map<Key, int>)
    requires Recent(order, used)
    ensures Recent(Retained(order, changed), used)
  {
    if order != [] {
      hide Recent;
      RecentTail(order, used);
      RecentRetained(order[1..], changed, used);
      var rest := Retained(order[1..], changed);
      if !order[0].Touched(changed) { RecentWithHead(order[0], rest, used); }
    }
  }

  lemma RecentWithHead(e: Entry, rest: Order, used: map<Key, int>)
    requires Recent(rest, used) && e.key in used && forall x | x in rest :: x.key in used && used[e.key] > used[x.key]
    ensures Recent([e] + rest, used)
  {
    var longer := [e] + rest;
    assert forall i | 1 <= i < |longer| :: longer[i] == rest[i - 1] && longer[i] in rest;
  }

  /** A hit makes its entry the latest used; a miss uses nothing. */
  lemma LookupKeepsRecent(order: Order, key: Key, now: int, used: map<Key, int>, t: int)
    requires Recent(order, used) && Newest(used, t)
    ensures var found := LookedUp(order, key, now);
            && Recent(found.order, if found.Hit? then used[key := t] else used)
            && (found.Hit? ==> found.order != [] && found.order[0] == found.entry && found.entry.key == key)
  {
    RecentWithout(order, key, used);
    var found := LookedUp(order, key, now);
    if found.Hit? { RecentFront(found.entry, Without(order, key), used, t); }
  }

  /** A publish makes its entry the latest used, and every entry it evicts was last used before every other it keeps. */
  lemma PublishKeepsRecent(order: Order, e: Entry, maxEntries: nat, maxBytes: nat, used: map<Key, int>, t: int)
    requires Recent(order, used) && Newest(used, t)
    ensures var kept, used' := Published(order, e, maxEntries, maxBytes), used[e.key := t];
            && Recent(kept, used')
            && forall x, y | x in order && x.key != e.key && x !in kept && y in kept :: used'[y.key] > used'[x.key]
  {
    hide Recent, Fitted;
    RecentWithout(order, e.key, used);
    var all, used' := [e] + Without(order, e.key), used[e.key := t];
    RecentFront(e, Without(order, e.key), used, t);
    EvictionKeepsLongestPrefix(all, maxEntries, maxBytes);
    var kept := Published(order, e, maxEntries, maxBytes);
    assert kept == all[..|kept|] && |kept| <= |all|;
    RecentPrefix(all, |kept|, used');
    forall x, y | x in order && x.key != e.key && x !in kept && y in kept
      ensures x.key in used' && y.key in used' && used'[y.key] > used'[x.key]
    {
      assert x in Without(order, e.key) && x in all;
      EarlierIsLater(all, |kept|, x, y, used');
    }
  }

  lemma InPrefix(all: Order, n: nat, i: nat)
    requires n <= |all| && i < |all|
    ensures i < n ==> all[i] in all[..n]
  {
    if i < n { assert all[..n][i] == all[i]; }
  }

  lemma EarlierIsLater(all: Order, n: nat, x: Entry, y: Entry, used: map<Key, int>)
    requires Recent(all, used) && n <= |all| && x in all && x !in all[..n] && y in all[..n]
    ensures x.key in used && y.key in used && used[y.key] > used[x.key]
  {
    var i :| 0 <= i < |all| && all[i] == x;
    var j :| 0 <= j < n && all[..n][j] == y;
    InPrefix(all, n, i);
  }

  // ---------------------------------------------------------------- hits

  ghost predicate Resident(s: State, slot: Slot, e: Entry)
    requires slot.cache < |s.caches|
  {
    e in s.caches[slot.cache].order && e.key == slot.key && e.expires.Live(s.now)
  }

  lemma {:induction false} OnlyEntry(order: Order, e: Entry)
    requires DistinctKeys(order) && e in order
    ensures EntryOf(order, e.key) == e
  {
    if order[0].key == e.key {
      assert order[0] == e;
    } else {
      assert e in order[1..];
      OnlyEntry(order[1..], e);
    }
  }

  /**
   A lookup returns exactly if the value is resident and has not expired, and then it returns that
   value; otherwise it waits on the newest channel if a commit is pending, and goes to load if none is.
   */
  lemma LookupExactly(s: State, r: Id)
    requires Inv(s) && Enabled(s, Lookup(r))
    ensures var slot, reader := s.readers[r].slot, Next(s, Lookup(r)).readers[r];
            && (reader.Returned? <==> exists e :: Resident(s, slot, e))
            && (forall e | Resident(s, slot, e) :: reader == Returned(slot, Result(e.data, e.expires, e.expires)))
            && (!reader.Returned? && s.pending > 0 ==> s.channels > 0 && reader == Blocked(slot, s.channels - 1))
            && (!reader.Returned? && s.pending == 0 ==> reader == Missed(slot, s.generation))
  {
    var slot := s.readers[r].slot;
    var order := s.caches[slot.cache].order;
    forall e | Resident(s, slot, e) ensures LookedUp(order, slot.key, s.now).Hit? && EntryOf(order, slot.key) == e {
      OnlyEntry(order, e);
    }
    if x :| x in order && x.key == slot.key {
      OnlyEntry(order, x);
      if x.expires.Live(s.now) { assert Resident(s, slot, x); }
    }
  }

  /** An invalidation removes exactly the entries that depend on something changed. */
  lemma InvalidationExactly(s: State, step: Step, i: nat, e: Entry)
    requires Enabled(s, step) && (step.Fence? || step.Settle?) && i < |s.caches|
    ensures var changes := if step.Fence? then step.changes else s.writers[step.writer].changes;
            && |Next(s, step).caches| == |s.caches|
            && (e in Next(s, step).caches[i].order <==>
                  e in s.caches[i].order && forall k | 0 <= k < |e.deps| :: e.deps[k] !in changes)
  {
    hide LookedUp, Published;
    var changes := if step.Fence? then step.changes else s.writers[step.writer].changes;
    assert e.Touched(changes) <==> exists k :: 0 <= k < |e.deps| && e.deps[k] in changes;
  }

  // ---------------------------------------------------------------- a Get that nobody disturbs

  lemma NoResidentMisses(s: State, slot: Slot)
    requires slot.cache < |s.caches| && DistinctKeys(s.caches[slot.cache].order)
    requires forall e :: !Resident(s, slot, e)
    ensures var found := LookedUp(s.caches[slot.cache].order, slot.key, s.now);
            && found.Miss? && (forall e | e in found.order :: e.key != slot.key)
            && LookedUp(found.order, slot.key, s.now) == Miss(found.order)
  {
    var order := s.caches[slot.cache].order;
    if x :| x in order && x.key == slot.key {
      OnlyEntry(order, x);
      assert !Resident(s, slot, x);
    }
  }

  /** One Get from call to return, when the value is not resident. */
  function QuietSteps(r: Id, f: Id, slot: Slot): seq<Step> {
    [Call(r, slot), Lookup(r), Join(r, f), FlightStart(f), FlightRead(f), FlightEnd(f), Check(r)]
  }

  ghost predicate Steps(s: State, step: Step, s': State) {
    Enabled(s, step) && s' == Next(s, step)
  }

  /** A state of that Get: its reader, its flight, and the order of its cache. */
  function Stage(s: State, r: Id, f: Id, slot: Slot, reader: Reader, flight: Option<Flight>, order: Order): State
    requires slot.cache < |s.caches|
  {
    s.(readers := s.readers[r := reader],
       flights := if flight.Some? then s.flights[f := flight.value] else s.flights,
       caches := s.caches[slot.cache := s.caches[slot.cache].(order := order)])
  }

  ghost predicate Undisturbed(s: State, r: Id, f: Id, slot: Slot) {
    && s.pending == 0 && r !in s.readers && f !in s.flights && slot.cache < |s.caches|
    && DistinctKeys(s.caches[slot.cache].order) && forall e :: !Resident(s, slot, e)
  }

  lemma QuietMiss(s: State, r: Id, f: Id, slot: Slot, order: Order)
    requires Undisturbed(s, r, f, slot) && order == LookedUp(s.caches[slot.cache].order, slot.key, s.now).order
    ensures var t1 := Stage(s, r, f, slot, Trying(slot), None, s.caches[slot.cache].order);
            && Steps(s, Call(r, slot), t1)
            && Steps(t1, Lookup(r), Stage(s, r, f, slot, Missed(slot, s.generation), None, order))
  {
    hide LookedUp, Published;
    NoResidentMisses(s, slot);
    assert s.caches[slot.cache := s.caches[slot.cache].(order := s.caches[slot.cache].order)] == s.caches;
    assert s.readers[r := Trying(slot)][r := Missed(slot, s.generation)] == s.readers[r := Missed(slot, s.generation)];
  }

  lemma QuietJoin(s: State, r: Id, f: Id, slot: Slot, order: Order)
    requires Undisturbed(s, r, f, slot)
    ensures Steps(Stage(s, r, f, slot, Missed(slot, s.generation), None, order), Join(r, f),
                  Stage(s, r, f, slot, Waiting(slot, f), Some(Queued(slot, s.generation)), order))
  {
    hide LookedUp, Published, Resident;
    assert s.readers[r := Missed(slot, s.generation)][r := Waiting(slot, f)] == s.readers[r := Waiting(slot, f)];
  }

  lemma QuietLoad(s: State, r: Id, f: Id, slot: Slot, order: Order)
    requires Undisturbed(s, r, f, slot) && LookedUp(order, slot.key, s.now) == Miss(order)
    ensures var reader, g := Waiting(slot, f), s.generation;
            && Steps(Stage(s, r, f, slot, reader, Some(Queued(slot, g)), order), FlightStart(f),
                     Stage(s, r, f, slot, reader, Some(Loading(slot, g)), order))
            && Steps(Stage(s, r, f, slot, reader, Some(Loading(slot, g)), order), FlightRead(f),
                     Stage(s, r, f, slot, reader, Some(Loaded(slot, g, s.committed(slot))), order))
  {
    hide LookedUp, Published, Resident;
    var g := s.generation;
    var c := s.caches[slot.cache].(order := order);
    assert s.caches[slot.cache := c][slot.cache := c] == s.caches[slot.cache := c];
    assert s.flights[f := Queued(slot, g)][f := Loading(slot, g)] == s.flights[f := Loading(slot, g)];
    assert s.flights[f := Loading(slot, g)][f := Loaded(slot, g, s.committed(slot))]
        == s.flights[f := Loaded(slot, g, s.committed(slot))];
  }

  /** What the flight leaves in its cache. */
  function Stored(c: CacheState, order: Order, slot: Slot, v: Snapshot): Order {
    var e := Entry(slot.key, v.data, v.deps, v.expires);
    if |v.data| <= c.maxBytes then Published(order, e, c.maxEntries, c.maxBytes) else order
  }

  lemma QuietReturn(s: State, r: Id, f: Id, slot: Slot, order: Order, v: Snapshot)
    requires Undisturbed(s, r, f, slot) && v.expires.Live(s.now)
    ensures var reader, g, result := Waiting(slot, f), s.generation, Result(v.data, v.expires, v.expires);
            var after := Stored(s.caches[slot.cache], order, slot, v);
            && Steps(Stage(s, r, f, slot, reader, Some(Loaded(slot, g, v)), order), FlightEnd(f),
                     Stage(s, r, f, slot, reader, Some(Done(slot, g, result)), after))
            && Steps(Stage(s, r, f, slot, reader, Some(Done(slot, g, result)), after), Check(r),
                     Stage(s, r, f, slot, Returned(slot, result), Some(Done(slot, g, result)), after))
  {
    hide LookedUp, Published, Resident;
    var g, result := s.generation, Result(v.data, v.expires, v.expires);
    var after := Stored(s.caches[slot.cache], order, slot, v);
    assert s.flights[f := Loaded(slot, g, v)][f := Done(slot, g, result)] == s.flights[f := Done(slot, g, result)];
    assert s.readers[r := Waiting(slot, f)][r := Returned(slot, result)] == s.readers[r := Returned(slot, result)];
    assert s.caches[slot.cache := s.caches[slot.cache].(order := order)]
            [slot.cache := s.caches[slot.cache].(order := after)]
        == s.caches[slot.cache := s.caches[slot.cache].(order := after)];
  }

  /**
   With no commit pending, a Get of something not resident, left alone, loads and returns what the
   database has, unless that has expired. If it fits, it is resident then, so that the next Get hits.
   */
  lemma QuietGet(s: State, r: Id, f: Id, slot: Slot) returns (trace: seq<State>)
    requires Inv(s) && s.pending == 0 && r !in s.readers && f !in s.flights && slot.cache < |s.caches|
    requires (forall e :: !Resident(s, slot, e)) && s.committed(slot).expires.Live(s.now)
    ensures |trace| == 8 && trace[0] == s
    ensures forall i | 0 <= i < 7 :: Steps(trace[i], QuietSteps(r, f, slot)[i], trace[i + 1])
    ensures var v, last := s.committed(slot), trace[7];
            && r in last.readers && last.readers[r] == Returned(slot, Result(v.data, v.expires, v.expires))
            && |last.caches| == |s.caches|
            && (|v.data| <= s.caches[slot.cache].maxBytes ==>
                  Resident(last, slot, Entry(slot.key, v.data, v.deps, v.expires)))
  {
    hide LookedUp, Published, Resident, Steps;
    var c, g, v := s.caches[slot.cache], s.generation, s.committed(slot);
    var order, result := LookedUp(c.order, slot.key, s.now).order, Result(v.data, v.expires, v.expires);
    var after, waits := Stored(c, order, slot, v), Waiting(slot, f);
    assert Undisturbed(s, r, f, slot) && c.maxEntries >= 1;
    hide Inv;
    NoResidentMisses(s, slot);
    QuietMiss(s, r, f, slot, order);
    QuietJoin(s, r, f, slot, order);
    QuietLoad(s, r, f, slot, order);
    QuietReturn(s, r, f, slot, order, v);
    trace := [s, Stage(s, r, f, slot, Trying(slot), None, c.order), Stage(s, r, f, slot, Missed(slot, g), None, order),
              Stage(s, r, f, slot, waits, Some(Queued(slot, g)), order),
              Stage(s, r, f, slot, waits, Some(Loading(slot, g)), order),
              Stage(s, r, f, slot, waits, Some(Loaded(slot, g, v)), order),
              Stage(s, r, f, slot, waits, Some(Done(slot, g, result)), after),
              Stage(s, r, f, slot, Returned(slot, result), Some(Done(slot, g, result)), after)];
    if |v.data| <= c.maxBytes { StoredIsResident(s, r, f, slot, order, v, result); }
  }

  lemma StoredIsResident(s: State, r: Id, f: Id, slot: Slot, order: Order, v: Snapshot, result: Result)
    requires slot.cache < |s.caches| && v.expires.Live(s.now)
    requires |v.data| <= s.caches[slot.cache].maxBytes && s.caches[slot.cache].maxEntries >= 1
    ensures var after := Stored(s.caches[slot.cache], order, slot, v);
            var last := Stage(s, r, f, slot, Returned(slot, result), Some(Done(slot, s.generation, result)), after);
            Resident(last, slot, Entry(slot.key, v.data, v.deps, v.expires))
  {
    hide Published;
    var c, e := s.caches[slot.cache], Entry(slot.key, v.data, v.deps, v.expires);
    PublishedInFront(order, e, c.maxEntries, c.maxBytes);
  }

  lemma PublishedInFront(order: Order, e: Entry, maxEntries: nat, maxBytes: nat)
    requires maxEntries >= 1 && |e.data| <= maxBytes
    ensures Published(order, e, maxEntries, maxBytes) != [] && Published(order, e, maxEntries, maxBytes)[0] == e
  {
    var all := [e] + Without(order, e.key);
    EvictionKeepsLongestPrefix(all, maxEntries, maxBytes);
    assert all[..1] == [e];
    FrontBytes(e, []);
    assert [e] + [] == [e] && Fits(all[..1], maxEntries, maxBytes);
  }
}
