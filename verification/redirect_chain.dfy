/**
 Deletions and restorations together (service/siteservice.go): when the one-hop redirect table still
 answers what following the chain of the deletions that have not been undone would.
 */
module RedirectChain {
  import opened GameRedirects

  datatype Event = Deletes(entry: Deletion) | Restores(game: Id)

  /** The deletions still in force: restoring a game undoes its own. */
  function Forget(log: seq<Deletion>, g: Id): seq<Deletion> {
    if log == [] then [] else (if log[0].game == g then [] else [log[0]]) + Forget(log[1..], g)
  }

  function LogAfter(log: seq<Deletion>, ev: Event): seq<Deletion> {
    match ev
    case Deletes(e) => log + [e]
    case Restores(g) => Forget(log, g)
  }

  ghost predicate Happens(s: Tables, ev: Event, s': Tables) {
    match ev
    case Deletes(e) => DeletesLive(s, e, s')
    case Restores(g) => Restored(s, g) == Some(s')
  }

  ghost predicate Distinct(log: seq<Deletion>) {
    forall i, j | 0 <= i < j < |log| :: log[i].game != log[j].game
  }

  /** No earlier deletion led to `g` when `g` was deleted. */
  ghost predicate Clean(log: seq<Deletion>, g: Id) {
    forall p, x | 0 <= p < |log| && log[p].game == g && Recorded(log[..p], x) :: Follow(log[..p], x) != Some(g)
  }

  // ---------------------------------------------------------------- logs taken apart

  lemma {:induction false} FollowSplit(a: seq<Deletion>, b: seq<Deletion>, x: Id)
    ensures Follow(a + b, x) == match Follow(a, x) case None => None case Some(y) => Follow(b, y)
  {
    if a == [] {
      assert a + b == b;
    } else {
      assert (a + b)[1..] == a[1..] + b;
      FollowSplit(a[1..], b, if a[0].game == x then a[0].dest else x);
    }
  }

  lemma {:induction false} ForgetSplit(a: seq<Deletion>, b: seq<Deletion>, g: Id)
    ensures Forget(a + b, g) == Forget(a, g) + Forget(b, g)
  {
    if a == [] {
      assert a + b == b;
    } else {
      assert (a + b)[1..] == a[1..] + b;
      ForgetSplit(a[1..], b, g);
    }
  }

  lemma {:induction false} ForgetAbsent(log: seq<Deletion>, g: Id)
    requires !Recorded(log, g)
    ensures Forget(log, g) == log
  {
    if log != [] {
      assert log[0].game != g;
      assert forall i | 0 <= i < |log| - 1 :: log[1..][i] == log[i + 1];
      ForgetAbsent(log[1..], g);
    }
  }

  /** The log around the one deletion of `g`. */
  lemma OnlyDeletion(log: seq<Deletion>, p: nat)
    requires Distinct(log) && p < |log|
    ensures log == log[..p] + ([log[p]] + log[p + 1..])
    ensures !Recorded(log[..p], log[p].game) && !Recorded(log[p + 1..], log[p].game)
  {
    var after := log[p + 1..];
    assert forall i | 0 <= i < |after| :: after[i] == log[p + 1 + i];
  }

  lemma ForgetOnly(log: seq<Deletion>, p: nat)
    requires Distinct(log) && p < |log|
    ensures Forget(log, log[p].game) == log[..p] + log[p + 1..]
  {
    hide Distinct, Recorded;
    var a, b, e := log[..p], log[p + 1..], log[p];
    OnlyDeletion(log, p);
    ForgetAbsent(a, e.game);
    ForgetAbsent(b, e.game);
    ForgetSplit(a, [e] + b, e.game);
    assert ([e] + b)[1..] == b;
  }

  lemma RecordedAround(a: seq<Deletion>, e: Deletion, b: seq<Deletion>, x: Id)
    requires x != e.game
    ensures Recorded(a + [e] + b, x) <==> Recorded(a + b, x)
  {
    var w, n := a + [e] + b, |a|;
    if i :| 0 <= i < |w| && w[i].game == x {
      assert i != n;
      assert (a + b)[if i < n then i else i - 1] == w[i];
    }
    if i :| 0 <= i < |a + b| && (a + b)[i].game == x {
      assert w[if i < n then i else i + 1] == (a + b)[i];
    }
  }

  lemma WithoutOneDistinct(log: seq<Deletion>, p: nat)
    requires Distinct(log) && p < |log|
    ensures Distinct(log[..p] + log[p + 1..])
  {
    var rest := log[..p] + log[p + 1..];
    assert forall i | 0 <= i < |rest| :: rest[i] == log[if i < p then i else i + 1];
  }

  lemma ForgetKeepsDistinct(log: seq<Deletion>, g: Id)
    requires Distinct(log)
    ensures Distinct(Forget(log, g))
    ensures forall x :: Recorded(Forget(log, g), x) <==> x != g && Recorded(log, x)
  {
    if p: nat :| p < |log| && log[p].game == g {
      OnlyDeletion(log, p);
      ForgetOnly(log, p);
      WithoutOneDistinct(log, p);
      hide Recorded, Forget, Distinct;
      var a, b := log[..p], log[p + 1..];
      assert a + [log[p]] + b == log;
      forall x ensures Recorded(a + b, x) <==> x != g && Recorded(log, x) {
        RecordedOfSum(a, b, x);
        if x != g { RecordedAround(a, log[p], b, x); }
      }
    } else {
      ForgetAbsent(log, g);
    }
  }

  lemma RecordedOfSum(a: seq<Deletion>, b: seq<Deletion>, x: Id)
    ensures Recorded(a + b, x) <==> Recorded(a, x) || Recorded(b, x)
  {
    if i :| 0 <= i < |a| && a[i].game == x { assert (a + b)[i] == a[i]; }
    if i :| 0 <= i < |b| && b[i].game == x { assert (a + b)[|a| + i] == b[i]; }
    if i :| 0 <= i < |a + b| && (a + b)[i].game == x {
      assert if i < |a| then a[i].game == x else b[i - |a|].game == x;
    }
  }

  // ---------------------------------------------------------------- one restoration

  /** Without the deletion of `g`, only the games that led to `g` at that moment lead elsewhere. */
  lemma FollowWithout(log: seq<Deletion>, p: nat, x: Id)
    requires Distinct(log) && p < |log| && x != log[p].game && Follow(log, x) != Some(log[p].game)
    ensures Follow(log, x) == Follow(Forget(log, log[p].game), x) <==> Follow(log[..p], x) != Some(log[p].game)
  {
    OnlyDeletion(log, p);
    ForgetOnly(log, p);
    var a, b, e := log[..p], log[p + 1..], log[p];
    assert ([e] + b)[1..] == b;
    FollowSplit(a, [e] + b, x);
    FollowSplit(a, b, x);
    UnrecordedStays(b, e.game);
  }

  /** The recorded games other than `g` lead where they did before its deletion was undone. */
  ghost predicate SameWay(log: seq<Deletion>, g: Id) {
    forall x | Recorded(log, x) && x != g :: Follow(log, x) == Follow(Forget(log, g), x)
  }

  lemma SameWayIsClean(log: seq<Deletion>, g: Id)
    requires Distinct(log) && forall x | Recorded(log, x) && Recorded(log, g) :: Follow(log, x) != Some(g)
    ensures SameWay(log, g) <==> Clean(log, g)
  {
    hide Follow;
    if p: nat :| p < |log| && log[p].game == g {
      OnlyDeletion(log, p);
      assert Recorded(log, g);
      forall x | Recorded(log, x) && x != g
        ensures Follow(log, x) == Follow(Forget(log, g), x) <==> Follow(log[..p], x) != Some(g)
      {
        FollowWithout(log, p, x);
      }
      forall x | Recorded(log[..p], x) ensures Recorded(log, x) && x != g {
        RecordedOfSum(log[..p], [log[p]] + log[p + 1..], x);
      }
      forall x | x != g && !Recorded(log[..p], x) ensures Follow(log[..p], x) != Some(g) {
        UnrecordedStays(log[..p], x);
      }
    } else {
      ForgetAbsent(log, g);
    }
  }

  lemma RestoredAnswersSameWay(s: Tables, log: seq<Deletion>, g: Id)
    requires Answers(s, log) && Distinct(log) && g in s.deleted
    ensures Answers(Restored(s, g).value, Forget(log, g)) <==> SameWay(log, g)
  {
    hide Follow, Recorded, Forget;
    ForgetKeepsDistinct(log, g);
    var s', kept := Restored(s, g).value, Forget(log, g);
    if Answers(s', kept) {
      forall x | Recorded(log, x) && x != g ensures Follow(log, x) == Follow(kept, x) {
        SameEnd(s, log, s', kept, x);
      }
    }
  }

  lemma SameEnd(s: Tables, log: seq<Deletion>, s': Tables, kept: seq<Deletion>, x: Id)
    requires forall d :: Redirect(d, x) in s.redirects <==> Follow(log, x) == Some(d)
    requires forall d :: Redirect(d, x) in s'.redirects <==> Follow(kept, x) == Some(d)
    requires forall d :: Redirect(d, x) in s.redirects <==> Redirect(d, x) in s'.redirects
    ensures Follow(log, x) == Follow(kept, x)
  {
    var p, q := Follow(log, x), Follow(kept, x);
    if p.Some? { assert Redirect(p.value, x) in s.redirects; }
    if q.Some? { assert Redirect(q.value, x) in s'.redirects; }
  }

  /**
   A restoration keeps table and chain in agreement exactly if no earlier deletion led to the
   restored game when it was deleted: those have since been repointed past it, or dropped, for good.
   */
  lemma RestorationKeepsAnswers(s: Tables, log: seq<Deletion>, g: Id)
    requires OneHop(s) && Answers(s, log) && Distinct(log) && g in s.deleted
    ensures Answers(Restored(s, g).value, Forget(log, g)) <==> Clean(log, g)
  {
    RestoredAnswersSameWay(s, log, g);
    hide Follow, Recorded, Forget, Clean;
    forall x | Recorded(log, x) && Recorded(log, g) ensures Follow(log, x) != Some(g) {
      assert Redirect(g, x) in s.redirects <==> Follow(log, x) == Some(g);
    }
    SameWayIsClean(log, g);
  }

  // ---------------------------------------------------------------- over whole runs

  ghost predicate Run(trace: seq<Tables>, logs: seq<seq<Deletion>>, events: seq<Event>) {
    && |trace| == |logs| == |events| + 1
    && trace[0].redirects == {} && (forall g | g in trace[0].deleted :: !trace[0].deleted[g]) && logs[0] == []
    && forall i | 0 <= i < |events| :: Happens(trace[i], events[i], trace[i + 1]) &&
        logs[i + 1] == LogAfter(logs[i], events[i])
  }

  ghost predicate AnswersSoFar(trace: seq<Tables>, logs: seq<seq<Deletion>>, n: nat)
    requires n < |trace| == |logs|
  {
    forall i | 0 <= i <= n :: Answers(trace[i], logs[i])
  }

  ghost predicate CleanSoFar(logs: seq<seq<Deletion>>, events: seq<Event>, n: nat)
    requires n <= |events| && n < |logs|
  {
    forall i | 0 <= i < n && events[i].Restores? :: Clean(logs[i], events[i].game)
  }

  lemma {:induction false} OneHopLasts(trace: seq<Tables>, logs: seq<seq<Deletion>>, events: seq<Event>, n: nat)
    requires Run(trace, logs, events) && n < |trace|
    ensures OneHop(trace[n])
  {
    if n > 0 {
      OneHopLasts(trace, logs, events, n - 1);
      hide OneHop, Deleted, Restored;
      var s, ev := trace[n - 1], events[n - 1];
      assert Happens(s, ev, trace[n]);
      StepKeepsOneHop(s, match ev case Deletes(e) => Delete(e.game, e.dest) case Restores(g) => Restore(g));
    }
  }

  lemma EventKeepsAnswers(s: Tables, log: seq<Deletion>, ev: Event, s': Tables)
    requires OneHop(s) && Answers(s, log) && Distinct(log) && Happens(s, ev, s')
    ensures Distinct(LogAfter(log, ev))
    ensures Answers(s', LogAfter(log, ev)) <==> (ev.Restores? ==> Clean(log, ev.game))
  {
    match ev
    case Restores(g) =>
      ForgetKeepsDistinct(log, g);
      RestorationKeepsAnswers(s, log, g);
    case Deletes(e) =>
      assert !Recorded(log, e.game);
      hide Answers, OneHop, Deleted;
      DeletionStep(s, log, e, s');
  }

  /**
   In every run of deletions and restorations the table answers the chain of the deletions in force
   all along, if and only if no game is ever restored to which another led when it was deleted.
   */
  lemma {:induction false} TableAnswersChainInForce(trace: seq<Tables>, logs: seq<seq<Deletion>>, events: seq<Event>,
                                                    n: nat)
    requires Run(trace, logs, events) && n < |trace|
    ensures AnswersSoFar(trace, logs, n) <==> CleanSoFar(logs, events, n)
    ensures AnswersSoFar(trace, logs, n) ==> Distinct(logs[n])
  {
    if n == 0 {
      assert Answers(trace[0], logs[0]);
    } else {
      hide Answers, Clean, Distinct, LogAfter, Happens;
      TableAnswersChainInForce(trace, logs, events, n - 1);
      OneHopLasts(trace, logs, events, n - 1);
      assert Happens(trace[n - 1], events[n - 1], trace[n]) && logs[n] == LogAfter(logs[n - 1], events[n - 1]);
      if AnswersSoFar(trace, logs, n - 1) {
        EventKeepsAnswers(trace[n - 1], logs[n - 1], events[n - 1], trace[n]);
      }
    }
  }

  // ---------------------------------------------------------------- a shortcut that stays

  function ShortcutEvents(a: Id, b: Id, c: Id): seq<Event> {
    [Deletes(Deletion(a, b)), Deletes(Deletion(b, c)), Restores(b)]
  }

  function ShortcutTrace(a: Id, b: Id, c: Id): seq<Tables> {
    [Tables(map[a := false, b := false, c := false], {}),
     Tables(map[a := true, b := false, c := false], {Redirect(b, a)}),
     Tables(map[a := true, b := true, c := false], {Redirect(c, a), Redirect(c, b)}),
     Tables(map[a := true, b := false, c := false], {Redirect(c, a)})]
  }

  function ShortcutLogs(a: Id, b: Id, c: Id): seq<seq<Deletion>> {
    [[], [Deletion(a, b)], [Deletion(a, b), Deletion(b, c)], [Deletion(a, b)]]
  }

  /** `a` goes in favour of `b`, `b` in favour of `c`, and `b` comes back: `a` still leads to `c`. */
  lemma RestorationLeavesShortcut(a: Id, b: Id, c: Id)
    requires a != b && b != c && a != c && a != "" && b != "" && c != ""
    ensures Run(ShortcutTrace(a, b, c), ShortcutLogs(a, b, c), ShortcutEvents(a, b, c))
    ensures Follow(ShortcutLogs(a, b, c)[3], a) == Some(b) && ShortcutTrace(a, b, c)[3].Live(b)
    ensures !Answers(ShortcutTrace(a, b, c)[3], ShortcutLogs(a, b, c)[3])
  {
    var trace, logs := ShortcutTrace(a, b, c), ShortcutLogs(a, b, c);
    FirstDeletion(a, b, c);
    SecondDeletion(a, b, c);
    assert Happens(trace[2], Restores(b), trace[3]) by {
      var kept := set r | r in trace[2].redirects && r.src != b;
      assert Redirect(c, a) in kept && kept == {Redirect(c, a)};
      assert trace[2].deleted[b := false] == trace[3].deleted;
    }
    ForgetShortcut(a, b, c);
    assert logs[3][1..] == [];
    assert logs[3] == [Deletion(a, b)] && Recorded([Deletion(a, b)], a) by { assert [Deletion(a, b)][0].game == a; }
  }

  lemma FirstDeletion(a: Id, b: Id, c: Id)
    requires a != b && b != c && a != c && b != ""
    ensures Happens(ShortcutTrace(a, b, c)[0], Deletes(Deletion(a, b)), ShortcutTrace(a, b, c)[1])
  {
    var s, s' := ShortcutTrace(a, b, c)[0], ShortcutTrace(a, b, c)[1];
    var gone := s.(deleted := s.deleted[a := true]);
    assert gone.deleted == s'.deleted;
    assert Added(gone, a, b) == Some(s') by { assert {} + {Redirect(b, a)} == s'.redirects; }
    assert Repointed(s'.redirects, a, b) == s'.redirects;
  }

  lemma SecondDeletion(a: Id, b: Id, c: Id)
    requires a != b && b != c && a != c && c != ""
    ensures Happens(ShortcutTrace(a, b, c)[1], Deletes(Deletion(b, c)), ShortcutTrace(a, b, c)[2])
  {
    var s, s' := ShortcutTrace(a, b, c)[1], ShortcutTrace(a, b, c)[2];
    var gone := s.(deleted := s.deleted[b := true]);
    var rows := {Redirect(b, a), Redirect(c, b)};
    assert gone.deleted == s'.deleted;
    assert Added(gone, b, c) == Some(gone.(redirects := rows)) by { assert s.redirects + {Redirect(c, b)} == rows; }
    assert Repointed(rows, b, c) == s'.redirects by {
      assert Redirect(b, a) in rows && Redirect(c, b) in rows;
      assert forall r :: r in Repointed(rows, b, c) <==> r in s'.redirects;
    }
  }

  lemma ForgetShortcut(a: Id, b: Id, c: Id)
    requires a != b
    ensures Forget([Deletion(a, b), Deletion(b, c)], b) == [Deletion(a, b)]
  {
    var first, second := [Deletion(a, b)], [Deletion(b, c)];
    assert first + second == [Deletion(a, b), Deletion(b, c)];
    ForgetSplit(first, second, b);
    assert Forget(second[1..], b) == [];
    assert Forget(first[1..], b) == [];
  }
}
