/**
 The recency list of one read cache (appcache/cache.go): entries in order of last use,
 front first, with the pure form of everything the cache does to it.
 */
module RecencyList {
  type Key = string
  type Data = string
  type Dependency = string

  /** A zero expiry time in the source is Never. */
  datatype Expiry = Never | At(instant: int) {
    /** `expires.IsZero() || now.Before(expires)` */
    predicate Live(now: int) {
      Never? || now < instant
    }
  }

  datatype Entry = Entry(key: Key, data: Data, deps: seq<Dependency>, expires: Expiry) {
    predicate Touched(changed: set<Dependency>) {
      exists d | d in deps :: d in changed
    }
  }

  type Order = seq<Entry>

  ghost predicate DistinctKeys(order: Order) {
    forall i, j | 0 <= i < j < |order| :: order[i].key != order[j].key
  }

  ghost function Keys(order: Order): set<Key> {
    set e | e in order :: e.key
  }

  function TotalBytes(order: Order): nat {
    if order == [] then 0 else |order[0].data| + TotalBytes(order[1..])
  }

  predicate Fits(order: Order, maxEntries: nat, maxBytes: nat) {
    |order| <= maxEntries && TotalBytes(order) <= maxBytes
  }

  /** The list with the entry of one key unlinked. */
  function Without(order: Order, key: Key): (r: Order)
    ensures forall e :: e in r <==> e in order && e.key != key
  {
    if order == [] then []
    else if order[0].key == key then Without(order[1..], key)
    else [order[0]] + Without(order[1..], key)
  }

  /** The list after a commit has dropped every entry that depends on something it changed. */
  function Retained(order: Order, changed: set<Dependency>): (r: Order)
    ensures forall e :: e in r <==> e in order && !e.Touched(changed)
  {
    if order == [] then []
    else if order[0].Touched(changed) then Retained(order[1..], changed)
    else [order[0]] + Retained(order[1..], changed)
  }

  /** Eviction: unlink from the back until both limits hold. */
  function Fitted(order: Order, maxEntries: nat, maxBytes: nat): Order
    decreases |order|
  {
    if order == [] || Fits(order, maxEntries, maxBytes) then order
    else Fitted(order[..|order| - 1], maxEntries, maxBytes)
  }

  function Published(order: Order, e: Entry, maxEntries: nat, maxBytes: nat): Order {
    Fitted([e] + Without(order, e.key), maxEntries, maxBytes)
  }

  datatype Found = Hit(order: Order, entry: Entry) | Miss(order: Order)

  function EntryOf(order: Order, key: Key): (e: Entry)
    requires exists x :: x in order && x.key == key
    ensures e in order && e.key == key
  {
    if order[0].key == key then order[0] else EntryOf(order[1..], key)
  }

  /** Lookup drops an expired entry and moves a live one to the front. */
  function LookedUp(order: Order, key: Key, now: int): Found {
    if exists x :: x in order && x.key == key then
      var e := EntryOf(order, key);
      if e.expires.Live(now) then Hit([e] + Without(order, key), e) else Miss(Without(order, key))
    else
      Miss(order)
  }

  // ---------------------------------------------------------------- bytes

  lemma {:induction false} TotalBytesConcat(a: Order, b: Order)
    ensures TotalBytes(a + b) == TotalBytes(a) + TotalBytes(b)
  {
    if a == [] {
      assert a + b == b;
    } else {
      assert (a + b)[1..] == a[1..] + b;
      TotalBytesConcat(a[1..], b);
    }
  }

  lemma FrontBytes(e: Entry, order: Order)
    ensures TotalBytes([e] + order) == |e.data| + TotalBytes(order)
  {
    assert ([e] + order)[1..] == order;
  }

  // ---------------------------------------------------------------- unlinking one key

  lemma {:induction false} WithoutKeepsDistinct(order: Order, key: Key)
    requires DistinctKeys(order)
    ensures DistinctKeys(Without(order, key))
  {
    if order != [] {
      WithoutKeepsDistinct(order[1..], key);
      var rest := Without(order[1..], key);
      forall e | e in rest ensures e.key != order[0].key {
        var i :| 0 <= i < |order[1..]| && order[1..][i] == e;
        assert order[i + 1] == e;
      }
    }
  }

  lemma {:induction false} WithoutAbsent(order: Order, key: Key)
    requires key !in Keys(order)
    ensures Without(order, key) == order
  {
    if order != [] {
      assert order[0] in order;
      forall e | e in order[1..] ensures e in order { }
      WithoutAbsent(order[1..], key);
    }
  }

  /** Unlinking an entry gives back exactly its bytes and its place. */
  lemma {:induction false} WithoutPresent(order: Order, e: Entry)
    requires DistinctKeys(order) && e in order
    ensures TotalBytes(Without(order, e.key)) == TotalBytes(order) - |e.data|
    ensures |Without(order, e.key)| == |order| - 1
    ensures Keys(Without(order, e.key)) == Keys(order) - {e.key}
  {
    if order[0].key == e.key {
      assert order[0] == e by {
        var i :| 0 <= i < |order| && order[i] == e;
      }
      assert e.key !in Keys(order[1..]) by {
        forall x | x in order[1..] ensures x.key != e.key {
          var i :| 0 <= i < |order[1..]| && order[1..][i] == x;
          assert order[i + 1] == x;
        }
      }
      WithoutAbsent(order[1..], e.key);
    } else {
      assert e in order[1..];
      WithoutPresent(order[1..], e);
    }
    forall k ensures k in Keys(Without(order, e.key)) <==> k in Keys(order) - {e.key} {
      if k in Keys(order) && k != e.key {
        var x :| x in order && x.key == k;
        assert x in Without(order, e.key);
      }
    }
  }

  /** The last entry of the list is the one eviction unlinks. */
  lemma {:induction false} WithoutLast(order: Order)
    requires DistinctKeys(order) && order != []
    ensures Without(order, order[|order| - 1].key) == order[..|order| - 1]
  {
    var last := order[|order| - 1];
    if |order| == 1 {
      assert order[1..] == [];
    } else {
      assert order[1..][|order[1..]| - 1] == last;
      WithoutLast(order[1..]);
      assert [order[0]] + order[1..][..|order| - 2] == order[..|order| - 1];
    }
  }

  lemma {:induction false} KeysCount(order: Order)
    requires DistinctKeys(order)
    ensures |Keys(order)| == |order|
  {
    if order == [] {
      assert Keys(order) == {};
    } else {
      KeysCount(order[1..]);
      assert Keys(order) == {order[0].key} + Keys(order[1..]);
      assert order[0].key !in Keys(order[1..]) by {
        forall x | x in order[1..] ensures x.key != order[0].key {
          var i :| 0 <= i < |order[1..]| && order[1..][i] == x;
          assert order[i + 1] == x;
        }
      }
    }
  }

  // ---------------------------------------------------------------- invalidation

  /** The list part-way through an invalidation: only the keys in `visited` have been examined. */
  ghost function Purged(order: Order, changed: set<Dependency>, visited: set<Key>): (r: Order)
    ensures forall e :: e in r <==> e in order && !(e.key in visited && e.Touched(changed))
  {
    if order == [] then []
    else
      var rest := Purged(order[1..], changed, visited);
      if order[0].key in visited && order[0].Touched(changed) then rest else [order[0]] + rest
  }

  lemma {:induction false} PurgedNone(order: Order, changed: set<Dependency>)
    ensures Purged(order, changed, {}) == order
  {
    if order != [] { PurgedNone(order[1..], changed); }
  }

  lemma {:induction false} PurgedAll(order: Order, changed: set<Dependency>, visited: set<Key>)
    requires forall e | e in order :: e.key in visited
    ensures Purged(order, changed, visited) == Retained(order, changed)
  {
    if order != [] {
      assert order[0] in order;
      PurgedAll(order[1..], changed, visited);
    }
  }

  /** Examining one more entry unlinks it when it is touched and changes nothing otherwise. */
  lemma {:induction false} PurgedStep(order: Order, changed: set<Dependency>, visited: set<Key>, e: Entry)
    requires DistinctKeys(order) && e in order
    ensures Purged(order, changed, visited + {e.key}) ==
            if e.Touched(changed) then Without(Purged(order, changed, visited), e.key)
            else Purged(order, changed, visited)
  {
    var x, rest := order[0], order[1..];
    forall y | y in rest ensures y in order && y.key != x.key {
      var i :| 0 <= i < |rest| && rest[i] == y;
      assert order[i + 1] == y;
    }
    if x == e {
      PurgedOther(rest, changed, visited, e.key);
      WithoutAbsent(Purged(rest, changed, visited), e.key);
    } else {
      assert e in rest;
      PurgedStep(rest, changed, visited, e);
    }
  }

  lemma {:induction false} PurgedOther(order: Order, changed: set<Dependency>, visited: set<Key>, key: Key)
    requires key !in Keys(order)
    ensures Purged(order, changed, visited + {key}) == Purged(order, changed, visited)
  {
    if order != [] {
      assert order[0] in order;
      forall e | e in order[1..] ensures e in order { }
      PurgedOther(order[1..], changed, visited, key);
    }
  }

  lemma {:induction false} PurgedKeepsDistinct(order: Order, changed: set<Dependency>, visited: set<Key>)
    requires DistinctKeys(order)
    ensures DistinctKeys(Purged(order, changed, visited))
  {
    if order != [] {
      PurgedKeepsDistinct(order[1..], changed, visited);
      forall e | e in Purged(order[1..], changed, visited) ensures e.key != order[0].key {
        var i :| 0 <= i < |order[1..]| && order[1..][i] == e;
        assert order[i + 1] == e;
      }
    }
  }

  lemma {:induction false} PurgedShrinks(order: Order, changed: set<Dependency>, visited: set<Key>)
    ensures |Purged(order, changed, visited)| <= |order|
    ensures TotalBytes(Purged(order, changed, visited)) <= TotalBytes(order)
  {
    if order != [] { PurgedShrinks(order[1..], changed, visited); }
  }

  // ---------------------------------------------------------------- eviction

  /** `kept` is a prefix of recency order that fits, and no longer prefix does. */
  ghost predicate LongestFittingPrefix(kept: Order, order: Order, maxEntries: nat, maxBytes: nat) {
    && kept <= order
    && Fits(kept, maxEntries, maxBytes)
    && forall n | |kept| < n <= |order| :: !Fits(order[..n], maxEntries, maxBytes)
  }

  /** The survivors of eviction are the longest prefix of recency order within both limits. */
  lemma {:induction false} EvictionKeepsLongestPrefix(order: Order, maxEntries: nat, maxBytes: nat)
    ensures LongestFittingPrefix(Fitted(order, maxEntries, maxBytes), order, maxEntries, maxBytes)
    decreases |order|
  {
    if order != [] && !Fits(order, maxEntries, maxBytes) {
      var shorter := order[..|order| - 1];
      EvictionKeepsLongestPrefix(shorter, maxEntries, maxBytes);
      var kept := Fitted(shorter, maxEntries, maxBytes);
      forall n | |kept| < n <= |order| ensures !Fits(order[..n], maxEntries, maxBytes) {
        if n == |order| {
          assert order[..n] == order;
        } else {
          assert order[..n] == shorter[..n];
        }
      }
    }
  }

  /**
   A value no larger than the byte limit is resident, in front, right after it is published;
   every other survivor is an older resident of another key, and both limits hold.
   */
  lemma {:induction false} PublishKeepsNewest(order: Order, e: Entry, maxEntries: nat, maxBytes: nat)
    requires DistinctKeys(order) && maxEntries >= 1 && |e.data| <= maxBytes
    ensures var kept := Published(order, e, maxEntries, maxBytes);
            && kept != [] && kept[0] == e
            && DistinctKeys(kept)
            && Fits(kept, maxEntries, maxBytes)
            && LongestFittingPrefix(kept, [e] + Without(order, e.key), maxEntries, maxBytes)
            && (forall x | x in kept :: x == e || (x in order && x.key != e.key))
  {
    var whole := [e] + Without(order, e.key);
    var kept := Published(order, e, maxEntries, maxBytes);
    EvictionKeepsLongestPrefix(whole, maxEntries, maxBytes);
    WithoutKeepsDistinct(order, e.key);
    assert DistinctKeys(whole);
    assert kept <= whole;
    assert whole[..1] == [e] && TotalBytes([e]) == |e.data|;
    assert Fits(whole[..1], maxEntries, maxBytes);
    assert forall i | 0 <= i < |kept| :: kept[i] == whole[i];
  }

  // ---------------------------------------------------------------- key map and list

  /** The key map and the recency list are two views of the same entries. */
  ghost predicate Linked(entries: map<Key, Entry>, order: Order) {
    && DistinctKeys(order)
    && (forall k | k in entries :: entries[k].key == k && entries[k] in order)
    && (forall e | e in order :: e.key in entries && entries[e.key] == e)
  }

  lemma LinkedMember(entries: map<Key, Entry>, order: Order, key: Key)
    requires Linked(entries, order) && key in entries
    ensures entries[key] in order && entries[key].key == key
  {
  }

  lemma LinkedDistinct(entries: map<Key, Entry>, order: Order)
    requires Linked(entries, order)
    ensures DistinctKeys(order)
  {
  }

  lemma LinkedKeys(entries: map<Key, Entry>, order: Order)
    requires Linked(entries, order)
    ensures forall e | e in order :: e.key in entries
  {
  }

  lemma LinkedCount(entries: map<Key, Entry>, order: Order)
    requires Linked(entries, order)
    ensures |entries| == |order|
  {
    KeysCount(order);
    assert entries.Keys == Keys(order) by {
      forall k ensures k in entries.Keys <==> k in Keys(order) {
        if k in entries { assert entries[k] in order; }
      }
    }
  }

  lemma LinkedRemove(entries: map<Key, Entry>, order: Order, e: Entry)
    requires Linked(entries, order) && e in order
    ensures Linked(entries - {e.key}, Without(order, e.key))
    ensures |entries - {e.key}| == |entries| - 1 && |Without(order, e.key)| == |order| - 1
    ensures TotalBytes(Without(order, e.key)) == TotalBytes(order) - |e.data|
  {
    WithoutPresent(order, e);
    WithoutKeepsDistinct(order, e.key);
    LinkedCount(entries, order);
    LinkedCount(entries - {e.key}, Without(order, e.key));
  }

  lemma LinkedPush(entries: map<Key, Entry>, order: Order, e: Entry)
    requires Linked(entries, order) && e.key !in entries
    ensures Linked(entries[e.key := e], [e] + order)
    ensures TotalBytes([e] + order) == |e.data| + TotalBytes(order)
  {
    FrontBytes(e, order);
    assert forall x | x in order :: x.key != e.key;
  }

  /** Moving an entry to the front relinks it without touching the key map or the bytes. */
  lemma LinkedTouch(entries: map<Key, Entry>, order: Order, e: Entry)
    requires Linked(entries, order) && e in order
    ensures Linked(entries, [e] + Without(order, e.key))
    ensures TotalBytes([e] + Without(order, e.key)) == TotalBytes(order)
  {
    var rest := Without(order, e.key);
    WithoutPresent(order, e);
    WithoutKeepsDistinct(order, e.key);
    FrontBytes(e, rest);
    assert forall x | x in order :: x == e || x in rest;
    assert forall x | x in [e] + rest :: x == e || x in rest;
  }

  lemma LinkedLookup(entries: map<Key, Entry>, order: Order, key: Key, now: int)
    requires Linked(entries, order)
    ensures key !in entries ==> LookedUp(order, key, now) == Miss(order)
    ensures key in entries && entries[key].expires.Live(now) ==>
              LookedUp(order, key, now) == Hit([entries[key]] + Without(order, key), entries[key])
    ensures key in entries && !entries[key].expires.Live(now) ==>
              LookedUp(order, key, now) == Miss(Without(order, key))
  {
    if key in entries {
      assert entries[key] in order;
      assert EntryOf(order, key) == entries[key];
    }
  }
}
