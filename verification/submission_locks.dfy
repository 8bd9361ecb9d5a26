/**
 Row locks on submissions (database/submission_locks.go): the order in which one call takes them,
 and why any number of concurrent calls with overlapping lists cannot deadlock. At the end, the
 loop of service/submission_cache_rebuild.go that visits every live submission once.
 */
module SubmissionLocks {
  datatype Option<+T> = None | Some(value: T)

  ghost predicate Ascending(s: seq<int>) {
    forall i, j | 0 <= i < j < |s| :: s[i] <= s[j]
  }

  ghost predicate StrictlyAscending(s: seq<int>) {
    forall i, j | 0 <= i < j < |s| :: s[i] < s[j]
  }

  // ---------------------------------------------------------------- sorted, without repeats

  function Inserted(s: seq<int>, x: int): seq<int> {
    if s == [] || x <= s[0] then [x] + s else [s[0]] + Inserted(s[1..], x)
  }

  function Sorted(s: seq<int>): seq<int> {
    if s == [] then [] else Inserted(Sorted(s[1..]), s[0])
  }

  /** slices.Compact: keeps the first of each run of equal elements. */
  function Compacted(s: seq<int>): seq<int> {
    if |s| <= 1 then s
    else if s[0] == s[1] then Compacted(s[1..])
    else [s[0]] + Compacted(s[1..])
  }

  lemma {:induction false} InsertedIsSorted(s: seq<int>, x: int)
    requires Ascending(s)
    ensures Ascending(Inserted(s, x))
    ensures multiset(Inserted(s, x)) == multiset(s) + multiset{x}
  {
    if s == [] || x <= s[0] {
      assert forall i | 0 <= i < |s| :: x <= s[i];
    } else {
      InsertedIsSorted(s[1..], x);
      var rest := Inserted(s[1..], x);
      assert s == [s[0]] + s[1..];
      forall i | 0 <= i < |rest| ensures s[0] <= rest[i] {
        assert rest[i] in multiset(rest);
        assert rest[i] == x || rest[i] in s[1..];
      }
      hide Inserted;
      assert Ascending([s[0]] + rest);
    }
  }

  lemma {:induction false} SortedIsSorted(s: seq<int>)
    ensures Ascending(Sorted(s)) && multiset(Sorted(s)) == multiset(s)
  {
    if s != [] {
      SortedIsSorted(s[1..]);
      InsertedIsSorted(Sorted(s[1..]), s[0]);
      assert s == [s[0]] + s[1..];
    }
  }

  lemma {:induction false} CompactedIsStrict(s: seq<int>)
    requires Ascending(s)
    ensures StrictlyAscending(Compacted(s))
    ensures forall x :: x in Compacted(s) <==> x in s
    ensures s != [] ==> Compacted(s) != [] && Compacted(s)[0] == s[0]
  {
    if |s| > 1 {
      CompactedIsStrict(s[1..]);
      assert s == [s[0]] + s[1..];
      if s[0] != s[1] {
        var rest := Compacted(s[1..]);
        forall i | 0 <= i < |rest| ensures s[0] < rest[i] { assert rest[0] == s[1] && (i > 0 ==> rest[0] < rest[i]); }
      }
    }
  }

  function LockOrder(ids: seq<int>): seq<int> {
    Compacted(Sorted(ids))
  }

  lemma LockOrderIsStrict(ids: seq<int>)
    ensures StrictlyAscending(LockOrder(ids))
    ensures forall x :: x in LockOrder(ids) <==> x in ids
  {
    SortedIsSorted(ids);
    CompactedIsStrict(Sorted(ids));
    forall x ensures x in Sorted(ids) <==> x in ids {
      assert x in Sorted(ids) <==> x in multiset(Sorted(ids));
      assert x in ids <==> x in multiset(ids);
    }
  }

  /**
   LockSubmissions, once every wait is over: each requested id is locked once, in ascending order;
   the first id without a live submission ends the call, with everything smaller locked.
   */
  method LockSubmissions(ids: seq<int>, live: set<int>) returns (locked: seq<int>, missing: Option<int>)
    ensures StrictlyAscending(locked)
    ensures missing.None? <==> forall x | x in ids :: x in live
    ensures missing.None? ==> forall x :: x in locked <==> x in ids
    ensures missing.Some? ==>
              && missing.value in ids && missing.value !in live
              && (forall x :: x in locked <==> x in ids && x < missing.value)
              && (forall x | x in ids && x !in live :: missing.value <= x)
  {
    var ordered := LockOrder(ids);
    LockOrderIsStrict(ids);
    locked := [];
    for i := 0 to |ordered|
      invariant locked == ordered[..i]
      invariant forall j | 0 <= j < i :: ordered[j] in live
    {
      var id := ordered[i];
      if id !in live {
        forall x ensures x in locked <==> x in ids && x < id {
          if x in ids && x < id {
            var k :| 0 <= k < |ordered| && ordered[k] == x;
            assert k < i;
            assert locked[k] == x;
          }
        }
        return locked, Some(id);
      }
      locked := locked + [id];
    }
    assert ordered[..|ordered|] == ordered;
    return locked, None;
  }

  // ---------------------------------------------------------------- concurrent calls

  /**
   One transaction: what it holds, what it still has to lock, in order, and whether it has ended.
   With nothing left to lock it is working and will commit or roll back.
   */
  datatype Locker = Locker(held: set<int>, wanted: seq<int>, ended: bool)

  ghost predicate Blocked(s: seq<Locker>, t: nat)
    requires t < |s|
  {
    !s[t].ended && s[t].wanted != [] && exists u | 0 <= u < |s| :: u != t && s[t].wanted[0] in s[u].held
  }

  /** Taking the next lock, ending (and so releasing), or giving up on an id that is not live. */
  datatype Move = Acquire(t: nat) | End(t: nat)

  ghost predicate Possible(s: seq<Locker>, m: Move) {
    && m.t < |s| && !s[m.t].ended
    && (m.Acquire? ==> s[m.t].wanted != [] && !Blocked(s, m.t))
  }

  function Moved(s: seq<Locker>, m: Move): seq<Locker>
    requires m.t < |s| && (m.Acquire? ==> s[m.t].wanted != [])
  {
    var l := s[m.t];
    match m
    case Acquire(t) => s[t := Locker(l.held + {l.wanted[0]}, l.wanted[1..], false)]
    case End(t) => s[t := Locker({}, l.wanted, true)]
  }

  /** A transaction can move on its own: it holds everything it wants, or its next lock is free. */
  ghost predicate Unblocked(s: seq<Locker>, t: nat) {
    t < |s| && !s[t].ended && !Blocked(s, t)
  }

  ghost predicate Orderly(s: seq<Locker>) {
    && (forall t | 0 <= t < |s| :: StrictlyAscending(s[t].wanted))
    && (forall t, x, i | 0 <= t < |s| && !s[t].ended && x in s[t].held && 0 <= i < |s[t].wanted| :: x < s[t].wanted[i])
    && (forall t | 0 <= t < |s| && s[t].ended :: s[t].held == {})
    && (forall t, u | 0 <= t < u < |s| :: s[t].held !! s[u].held)
  }

  lemma MoveKeepsOrderly(s: seq<Locker>, m: Move)
    requires Orderly(s) && Possible(s, m)
    ensures Orderly(Moved(s, m))
  {
    var t := m.t;
    var s' := Moved(s, m);
    assert forall u | 0 <= u < |s| && u != t :: s'[u] == s[u];
    if m.Acquire? {
      var x := s[t].wanted[0];
      assert StrictlyAscending(s[t].wanted[1..]);
      forall u | 0 <= u < |s| && u != t ensures x !in s[u].held { }
    }
  }

  /** The transactions as they start: each with the sorted, deduplicated form of an arbitrary list. */
  function Started(lists: seq<seq<int>>): seq<Locker> {
    seq(|lists|, i requires 0 <= i < |lists| => Locker({}, LockOrder(lists[i]), false))
  }

  ghost predicate Run(trace: seq<seq<Locker>>, moves: seq<Move>, lists: seq<seq<int>>) {
    && |trace| == |moves| + 1 && trace[0] == Started(lists)
    && forall i | 0 <= i < |moves| :: Possible(trace[i], moves[i]) && trace[i + 1] == Moved(trace[i], moves[i])
  }

  lemma {:induction false} RunIsOrderly(trace: seq<seq<Locker>>, moves: seq<Move>, lists: seq<seq<int>>, i: nat)
    requires Run(trace, moves, lists) && i < |trace|
    ensures Orderly(trace[i]) && |trace[i]| == |lists|
  {
    if i == 0 {
      forall t | 0 <= t < |lists| ensures StrictlyAscending(trace[0][t].wanted) {
        LockOrderIsStrict(lists[t]);
      }
    } else {
      RunIsOrderly(trace, moves, lists, i - 1);
      MoveKeepsOrderly(trace[i - 1], moves[i - 1]);
    }
  }

  /** Among the first n transactions, one whose next id is the largest any blocked one waits for. */
  lemma {:induction false} LargestWait(s: seq<Locker>, n: nat) returns (t: nat)
    requires n <= |s|
    requires exists u :: 0 <= u < n && Blocked(s, u)
    ensures t < n && Blocked(s, t)
    ensures forall u | 0 <= u < n && Blocked(s, u) :: s[u].wanted[0] <= s[t].wanted[0]
  {
    if u: nat :| u < n - 1 && Blocked(s, u) {
      t := LargestWait(s, n - 1);
      if Blocked(s, n - 1) && s[n - 1].wanted[0] > s[t].wanted[0] {
        t := n - 1;
      }
    } else {
      t := n - 1;
    }
  }

  /** The holder of the largest id waited for can itself only wait for a larger one, so it does not wait. */
  lemma SomeoneIsUnblocked(s: seq<Locker>, unfinished: nat)
    requires Orderly(s) && unfinished < |s| && !s[unfinished].ended
    ensures exists t: nat :: Unblocked(s, t)
  {
    if Blocked(s, unfinished) {
      var t := LargestWait(s, |s|);
      var u :| 0 <= u < |s| && u != t && s[t].wanted[0] in s[u].held;
      assert !s[u].ended;
      assert Unblocked(s, u);
    } else {
      assert Unblocked(s, unfinished);
    }
  }

  /**
   No deadlock: however many transactions run, whatever lists they lock, in every reachable state
   with an unfinished transaction some transaction is not blocked.
   */
  lemma NoDeadlock(trace: seq<seq<Locker>>, moves: seq<Move>, lists: seq<seq<int>>, i: nat, unfinished: nat)
    requires Run(trace, moves, lists) && i < |trace|
    requires unfinished < |lists| && |trace[i]| == |lists| && !trace[i][unfinished].ended
    ensures exists t: nat :: Unblocked(trace[i], t)
  {
    RunIsOrderly(trace, moves, lists, i);
    SomeoneIsUnblocked(trace[i], unfinished);
  }

  // ---------------------------------------------------------------- and it ends

  function Remaining(s: seq<Locker>): nat {
    if s == [] then 0
    else
      var last := s[|s| - 1];
      Remaining(s[..|s| - 1]) + if last.ended then 0 else 1 + |last.wanted|
  }

  lemma {:induction false} RemainingAfterChange(s: seq<Locker>, t: nat, l: Locker)
    requires t < |s|
    ensures Remaining(s[t := l]) == Remaining(s) - Remaining([s[t]]) + Remaining([l])
  {
    var n := |s| - 1;
    assert [s[t]][..0] == [] && [l][..0] == [];
    if t == n {
      assert s[t := l][..n] == s[..n];
    } else {
      assert s[t := l][..n] == s[..n][t := l];
      RemainingAfterChange(s[..n], t, l);
    }
  }

  /** Every move leaves less to do, so every run is at most as long as the lists allow. */
  lemma {:induction false} RunsAreBounded(trace: seq<seq<Locker>>, moves: seq<Move>, lists: seq<seq<int>>, i: nat)
    requires Run(trace, moves, lists) && i < |trace|
    ensures Remaining(trace[i]) + i <= Remaining(trace[0])
  {
    if i > 0 {
      hide Remaining;
      RunsAreBounded(trace, moves, lists, i - 1);
      var s, m := trace[i - 1], moves[i - 1];
      RemainingAfterChange(s, m.t, Moved(s, m)[m.t]);
      RemainingOfOne(s[m.t]);
      RemainingOfOne(Moved(s, m)[m.t]);
    }
  }

  lemma RemainingOfOne(l: Locker)
    ensures Remaining([l]) == if l.ended then 0 else 1 + |l.wanted|
  {
    assert [l][..0] == [];
  }

  /** Without sorting, two transactions can each wait for the other. */
  lemma UnsortedListsDeadlock(a: int, b: int)
    requires a != b
    ensures var s0 := [Locker({}, [a, b], false), Locker({}, [b, a], false)];
            Possible(s0, Acquire(0))
            && (var s1 := Moved(s0, Acquire(0));
                Possible(s1, Acquire(1))
                && (var s2 := Moved(s1, Acquire(1)); Blocked(s2, 0) && Blocked(s2, 1)))
  {
    var s0 := [Locker({}, [a, b], false), Locker({}, [b, a], false)];
    var s1 := [Locker({a}, [b], false), Locker({}, [b, a], false)];
    var s2 := [Locker({a}, [b], false), Locker({b}, [a], false)];
    assert {} + {a} == {a} && {} + {b} == {b};
    assert [a, b][1..] == [b] && [b, a][1..] == [a];
    assert Moved(s0, Acquire(0)) == s1 && Moved(s1, Acquire(1)) == s2;
    assert s2[0].wanted[0] in s2[1].held && s2[1].wanted[0] in s2[0].held;
    assert Blocked(s2, 0) && Blocked(s2, 1);
  }

  // ---------------------------------------------------------------- rebuilding every row

  datatype Parent = Parent(id: int, live: bool)

  /** Rows of the submission table in primary-key order. */
  ghost predicate ByKey(table: seq<Parent>) {
    && (forall i, j | 0 <= i < j < |table| :: table[i].id < table[j].id)
    && (forall i | 0 <= i < |table| :: table[i].id > 0)
  }

  /** The live ids of the table in ascending order. */
  function LiveIds(table: seq<Parent>): seq<int> {
    if table == [] then []
    else LiveIds(table[..|table| - 1]) + if table[|table| - 1].live then [table[|table| - 1].id] else []
  }

  lemma {:induction false} LiveIdsFollowTheTable(table: seq<Parent>)
    requires ByKey(table)
    ensures StrictlyAscending(LiveIds(table))
    ensures forall x | x in LiveIds(table) :: exists i :: 0 <= i < |table| && table[i].live && table[i].id == x
    ensures forall i | 0 <= i < |table| && table[i].live :: table[i].id in LiveIds(table)
  {
    if table != [] {
      var n := |table| - 1;
      var rest, last := table[..n], table[n];
      LiveIdsFollowTheTable(rest);
      var before := LiveIds(rest);
      forall i | 0 <= i < |before| ensures before[i] < last.id {
        assert before[i] in before;
        var k :| 0 <= k < n && rest[k].live && rest[k].id == before[i];
        assert table[k] == rest[k];
      }
      forall x | x in LiveIds(table) ensures exists i :: 0 <= i < |table| && table[i].live && table[i].id == x {
        if x in before {
          var k :| 0 <= k < n && rest[k].live && rest[k].id == x;
          assert table[k] == rest[k];
        } else {
          assert table[n].live && table[n].id == x;
        }
      }
      forall i | 0 <= i < |table| && table[i].live ensures table[i].id in LiveIds(table) {
        if i < n { assert rest[i] == table[i]; }
      }
    }
  }

  /** The next live ids past `after`, of which there are `done`; a limit that is not positive is an error. */
  method ListSubmissionIDsForCacheRebuild(table: seq<Parent>, ghost done: nat, after: int,
                                          limit: int) returns (ids: Option<seq<int>>)
    requires ByKey(table) && done <= |LiveIds(table)|
    requires forall i | 0 <= i < |LiveIds(table)| :: i < done <==> LiveIds(table)[i] <= after
    ensures ids.None? <==> limit <= 0
    ensures ids.Some? ==> ids.value == LiveIds(table)[done..][..Min(limit, |LiveIds(table)| - done)]
  {
    if limit <= 0 { return None; }
    var found := [];
    ghost var all := LiveIds(table);
    ghost var seen := 0;
    for i := 0 to |table|
      invariant 0 <= seen <= |all| && LiveIds(table[..i]) == all[..seen]
      invariant found == if seen <= done then [] else all[done..seen]
      invariant |found| < limit
    {
      LiveIdsOfMore(table, i);
      if table[i].live {
        assert table[i].id == all[seen];
        if table[i].id > after {
          found := found + [table[i].id];
        }
        seen := seen + 1;
        if |found| == limit {
          return Some(found);
        }
      }
    }
    assert table[..|table|] == table;
    return Some(found);
  }

  function Min(a: int, b: int): int {
    if a < b then a else b
  }

  lemma {:induction false} LiveIdsOfMore(table: seq<Parent>, i: nat)
    requires i < |table|
    ensures LiveIds(table[..i + 1]) == LiveIds(table[..i]) + if table[i].live then [table[i].id] else []
    ensures LiveIds(table[..i + 1]) <= LiveIds(table)
    decreases |table| - i
  {
    assert table[..i + 1][..i] == table[..i];
    if i + 1 < |table| {
      LiveIdsOfMore(table, i + 1);
    } else {
      assert table[..i + 1] == table;
    }
  }

  /**
   recomputeSubmissionCacheAll over a table that does not change meanwhile. Whatever the batch
   size, the ids rebuilt are the live ones in ascending order, each once, up to the first failure.
   */
  method RecomputeAll(table: seq<Parent>, failing: set<int>, batchSize: int) returns (rebuilt: seq<int>, ok: bool)
    requires ByKey(table)
    ensures batchSize <= 0 ==> !ok && rebuilt == []
    ensures rebuilt <= LiveIds(table) && forall x | x in rebuilt :: x !in failing
    ensures ok ==> rebuilt == LiveIds(table)
    ensures !ok && batchSize > 0 ==> |rebuilt| < |LiveIds(table)| && LiveIds(table)[|rebuilt|] in failing
  {
    ghost var all := LiveIds(table);
    LiveIdsFollowTheTable(table);
    if batchSize <= 0 { return [], false; }
    assert forall i | 0 <= i < |all| :: all[i] in all && all[i] > 0;
    rebuilt := [];
    var last := 0;
    while true
      invariant rebuilt <= all && forall x | x in rebuilt :: x !in failing
      invariant forall i | 0 <= i < |all| :: i < |rebuilt| <==> all[i] <= last
      decreases |all| - |rebuilt|
    {
      var ids := ListSubmissionIDsForCacheRebuild(table, |rebuilt|, last, batchSize);
      if ids.value == [] { return rebuilt, true; }
      ghost var before := |rebuilt|;
      for i := 0 to |ids.value|
        invariant |rebuilt| == before + i && rebuilt <= all && forall x | x in rebuilt :: x !in failing
        invariant forall k | 0 <= k < |all| :: k < |rebuilt| <==> all[k] <= last
      {
        var sid := ids.value[i];
        assert sid == all[|rebuilt|];
        if sid <= last { return rebuilt, false; }
        if sid in failing { return rebuilt, false; }
        rebuilt := rebuilt + [sid];
        last := sid;
      }
    }
  }
}
