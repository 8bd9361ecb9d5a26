/**
 One read cache and the coordinator that fences it, as the objects of appcache/cache.go:
 a key map, a recency list, a byte counter, and the mutex-held halves of a commit.
 */
module ReadCache {
  import opened RecencyList

  class Cache {
    const maxEntries: nat
    const maxBytes: nat
    var entries: map<Key, Entry>
    var lru: Order
    var bytes: int
    var invalidations: nat
    var evictions: nat

    /** The key map and the recency list hold the same entries, and the counter is exact. */
    ghost predicate Consistent()
      reads this
    {
      Linked(entries, lru) && bytes == TotalBytes(lru)
    }

    ghost predicate Valid()
      reads this
    {
      && maxEntries >= 1 && maxBytes >= 1
      && Consistent()
      && |entries| <= maxEntries
      && bytes <= maxBytes
    }

    constructor (maxEntries: nat, maxBytes: nat)
      requires maxEntries >= 1 && maxBytes >= 1
      ensures Valid() && lru == [] && this.maxEntries == maxEntries && this.maxBytes == maxBytes
    {
      this.maxEntries, this.maxBytes := maxEntries, maxBytes;
      entries, lru, bytes := map[], [], 0;
      invalidations, evictions := 0, 0;
    }

    method Remove(e: Entry)
      requires Consistent() && e in lru
      modifies `entries, `lru, `bytes
      ensures Consistent() && lru == Without(old(lru), e.key) && entries == old(entries) - {e.key}
      ensures |entries| == old(|entries|) - 1 && |lru| == old(|lru|) - 1 && bytes == old(bytes) - |e.data|
    {
      LinkedRemove(entries, lru, e);
      entries := entries - {e.key};
      bytes := bytes - |e.data|;
      lru := Without(lru, e.key);
    }

    /** The inner loop of `invalidate`: does any dependency of the entry appear among the changes? */
    static method AnyChanged(deps: seq<Dependency>, changed: set<Dependency>) returns (touched: bool)
      ensures touched <==> exists d | d in deps :: d in changed
    {
      var i := 0;
      touched := false;
      while i < |deps| && !touched
        invariant 0 <= i <= |deps|
        invariant touched ==> exists d | d in deps :: d in changed
        invariant !touched ==> forall j | 0 <= j < i :: deps[j] !in changed
      {
        touched := deps[i] in changed;
        i := i + 1;
      }
    }

    /** Walks the key map in any order, unlinking each entry with a changed dependency. */
    method Invalidate(changed: set<Dependency>)
      requires Valid()
      modifies `entries, `lru, `bytes, `invalidations
      ensures Valid() && lru == Retained(old(lru), changed)
      ensures invalidations == old(invalidations) + |old(lru)| - |lru|
    {
      hide Purged, Retained, Without, TotalBytes, Keys, Linked, DistinctKeys;
      var todo := entries.Keys;
      ghost var start, resident := lru, entries;
      ghost var visited: set<Key> := {};
      LinkedDistinct(entries, lru);
      PurgedNone(start, changed);
      forall k | k in entries ensures entries[k] in start && entries[k].key == k { LinkedMember(entries, lru, k); }
      assert forall e | e in start :: e.key in entries by { LinkedKeys(entries, lru); }
      while todo != {}
        invariant forall k | k in resident :: k in todo || k in visited
        invariant Consistent() && lru == Purged(start, changed, visited)
        invariant forall k | k in todo :: k in entries && entries[k] in start && entries[k].key == k && k !in visited
        invariant |entries| <= maxEntries && bytes <= maxBytes
        invariant invalidations == old(invalidations) + |start| - |lru|
        decreases todo
      {
        var key :| key in todo;
        LinkedMember(entries, lru, key);
        var e := entries[key];
        var touched := AnyChanged(e.deps, changed);
        PurgedStep(start, changed, visited, e);
        if touched {
          Remove(e);
          invalidations := invalidations + 1;
        }
        visited := visited + {key};
        todo := todo - {key};
      }
      PurgedAll(start, changed, visited);
    }

    /** `lookup`: a live entry moves to the front, an expired one is dropped. */
    method Lookup(key: Key, now: int) returns (found: bool, data: Data)
      requires Valid()
      modifies `entries, `lru, `bytes
      ensures Valid() && lru == LookedUp(old(lru), key, now).order
      ensures found == LookedUp(old(lru), key, now).Hit?
      ensures found ==> data == LookedUp(old(lru), key, now).entry.data
    {
      found, data := false, "";
      LinkedLookup(entries, lru, key, now);
      if key !in entries {
        return;
      }
      var e := entries[key];
      if !e.expires.Live(now) {
        Remove(e);
        return;
      }
      LinkedTouch(entries, lru, e);
      lru := [e] + Without(lru, key);
      found, data := true, e.data;
    }

    /** The publishing half of a load: replace, push to the front, then evict from the back. */
    method Publish(e: Entry)
      requires Valid() && |e.data| <= maxBytes
      modifies `entries, `lru, `bytes, `evictions
      ensures Valid() && lru == Published(old(lru), e, maxEntries, maxBytes)
      ensures lru != [] && lru[0] == e && e.key in entries && entries[e.key] == e
    {
      ghost var start := lru;
      if e.key in entries {
        Remove(entries[e.key]);
      } else {
        WithoutAbsent(lru, e.key);
      }
      LinkedPush(entries, lru, e);
      lru := [e] + lru;
      entries := entries[e.key := e];
      bytes := bytes + |e.data|;
      Evict();
      PublishKeepsNewest(start, e, maxEntries, maxBytes);
    }

    method Evict()
      requires Consistent()
      modifies `entries, `lru, `bytes, `evictions
      ensures Consistent() && lru == Fitted(old(lru), maxEntries, maxBytes)
      ensures |entries| <= maxEntries && bytes <= maxBytes
      ensures evictions == old(evictions) + old(|entries|) - |entries|
    {
      LinkedCount(entries, lru);
      while |entries| > maxEntries || bytes > maxBytes
        invariant Consistent() && |entries| == |lru|
        invariant Fitted(lru, maxEntries, maxBytes) == Fitted(old(lru), maxEntries, maxBytes)
        invariant evictions == old(evictions) + old(|entries|) - |entries|
        decreases |lru|
      {
        WithoutLast(lru);
        Remove(lru[|lru| - 1]);
        LinkedCount(entries, lru);
        evictions := evictions + 1;
      }
    }
  }

  class Coordinator {
    var generation: nat
    var caches: seq<Cache>
    var pending: nat
    var settledClosed: bool

    ghost predicate Valid()
      reads this, caches
    {
      && (forall i | 0 <= i < |caches| :: caches[i].Valid())
      && (forall i, j | 0 <= i < j < |caches| :: caches[i] != caches[j])
      && (pending > 0 ==> !settledClosed)
    }

    constructor ()
      ensures Valid() && generation == 0 && pending == 0 && caches == []
    {
      generation, pending, caches, settledClosed := 0, 0, [], true;
    }

    method Register(c: Cache)
      requires Valid() && c.Valid() && c !in caches
      modifies `caches
      ensures Valid() && caches == old(caches) + [c]
    {
      caches := caches + [c];
    }

    method InvalidateAll(changed: set<Dependency>)
      requires Valid()
      modifies set c | c in caches
      ensures Valid()
      ensures forall i | 0 <= i < |caches| :: caches[i].lru == Retained(old(caches[i].lru), changed)
    {
      hide Retained, Linked, TotalBytes;
      for i := 0 to |caches|
        invariant forall j | 0 <= j < |caches| :: caches[j].Valid()
        invariant forall j | 0 <= j < |caches| ::
            caches[j].lru == if j < i then Retained(old(caches[j].lru), changed) else old(caches[j].lru)
      {
        label before:
        caches[i].Invalidate(changed);
        assert forall j | 0 <= j < |caches| && j != i ::
            caches[j] != caches[i] && caches[j].lru == old@before(caches[j].lru);
      }
    }

    /** The half of Commit before the database commit: fence off affected readers. */
    method Fence(changed: set<Dependency>)
      requires Valid()
      modifies `generation, `pending, `settledClosed, set c | c in caches
      ensures Valid() && generation == old(generation) + 1 && pending == old(pending) + 1 && !settledClosed
      ensures forall i | 0 <= i < |caches| :: caches[i].lru == Retained(old(caches[i].lru), changed)
    {
      if pending == 0 {
        settledClosed := false;
      }
      pending := pending + 1;
      generation := generation + 1;
      InvalidateAll(changed);
    }

    /** The deferred half, run however the database commit ended. */
    method Settle(changed: set<Dependency>)
      requires Valid() && pending > 0
      modifies `generation, `pending, `settledClosed, set c | c in caches
      ensures Valid() && generation == old(generation) + 1 && pending == old(pending) - 1
      ensures settledClosed <==> pending == 0
      ensures forall i | 0 <= i < |caches| :: caches[i].lru == Retained(old(caches[i].lru), changed)
    {
      generation := generation + 1;
      InvalidateAll(changed);
      pending := pending - 1;
      if pending == 0 {
        settledClosed := true;
      }
    }
  }
}
