/**
 How many targets a game has (database/postgresdal.go): the primary key of the redirect table is
 target and source together, so it does not stop a source from getting a second target.
 */
module RedirectTargets {
  import opened GameRedirects

  /** No source has two targets, so that looking one up has only one answer. */
  ghost predicate OneTarget(s: Tables) {
    forall r, q | r in s.redirects && q in s.redirects && r.src == q.src :: r == q
  }

  ghost predicate HasTarget(s: Tables, src: Id) {
    exists r :: r in s.redirects && r.src == src
  }

  /** One target now, and still so when the transaction under way commits. */
  ghost predicate Single(w: World) {
    OneTarget(w.tables) && OneTarget(w.Outcome())
  }

  /**
   Told before the move: an inserted row's source has no target yet, nor one from the transaction
   under way; and a game that is deleted in favour of another leads nowhere yet.
   */
  ghost predicate Free(w: World, m: Move) {
    match m
    case Insert(q) =>
      Inserts(w, m) ==> !HasTarget(w.tables, w.checked[q].src) && !HasTarget(w.Outcome(), w.checked[q].src)
    case Begin(Delete(g, dest)) => dest != "" && Deleted(w.tables, g, dest).Some? ==> !HasTarget(w.tables, g)
    case _ => true
  }

  lemma FewerRows(s: Tables, s': Tables)
    requires OneTarget(s) && s'.redirects <= s.redirects
    ensures OneTarget(s')
  {
  }

  lemma OneMoreRow(s: Tables, s': Tables, r: Redirect)
    requires OneTarget(s) && r !in s.redirects && s'.redirects == s.redirects + {r}
    ensures OneTarget(s') <==> !HasTarget(s, r.src)
  {
    assert r in s'.redirects;
    if q :| q in s.redirects && q.src == r.src { assert q in s'.redirects; }
  }

  /** What a deletion makes of the rows, one by one. */
  lemma RepointedRow(s: Tables, g: Id, dest: Id, r: Redirect)
    requires dest != "" && Deleted(s, g, dest).Some?
    ensures Redirect(dest, g) !in s.redirects && dest != g
    ensures Redirect(dest, g) in Deleted(s, g, dest).value.redirects
    ensures r in s.redirects && r.dest != g ==> r in Deleted(s, g, dest).value.redirects
    ensures r in Deleted(s, g, dest).value.redirects ==>
              r == Redirect(dest, g) || (r in s.redirects && r.dest != g) ||
                  (r.dest == dest && Redirect(g, r.src) in s.redirects)
  {
    var rows := s.redirects + {Redirect(dest, g)};
    assert Redirect(dest, g) in rows;
    assert Deleted(s, g, dest).value.redirects == Repointed(rows, g, dest);
    if r in s.redirects { assert r in rows; }
  }

  /** A deletion in favour of another game keeps one target exactly if the deleted game had none. */
  lemma DeletionTargets(s: Tables, g: Id, dest: Id)
    requires OneTarget(s) && dest != "" && Deleted(s, g, dest).Some?
    ensures OneTarget(Deleted(s, g, dest).value) <==> !HasTarget(s, g)
  {
    hide Deleted;
    var s' := Deleted(s, g, dest).value;
    if r :| r in s.redirects && r.src == g {
      RepointedRow(s, g, dest, r);
      NotToItself(s, g, dest);
    } else {
      forall r, q | r in s'.redirects && q in s'.redirects && r.src == q.src ensures r == q {
        RepointedRow(s, g, dest, r);
        RepointedRow(s, g, dest, q);
        assert Redirect(g, r.src) in s.redirects ==> Redirect(g, r.src).src == r.src;
      }
    }
  }

  /** A game that led to itself could not be deleted in favour of another: the rows would clash. */
  lemma NotToItself(s: Tables, g: Id, dest: Id)
    requires dest != "" && Deleted(s, g, dest).Some?
    ensures Redirect(g, g) !in s.redirects
  {
    RepointedRow(s, g, dest, Redirect(g, g));
    var rows := s.redirects + {Redirect(dest, g)};
    if Redirect(g, g) in s.redirects {
      assert Redirect(g, g) in rows && Redirect(dest, g) in rows;
      assert Clashes(rows, g, dest);
    }
  }

  lemma StepTargets(s: Tables, step: Step)
    requires OneTarget(s) && !step.Add?
    ensures OneTarget(Next(s, step)) <==>
              (step.Delete? && step.dest != "" && Deleted(s, step.g, step.dest).Some? ==> !HasTarget(s, step.g))
  {
    match step
    case Delete(g, dest) =>
      if dest != "" {
        hide Deleted;
        if Deleted(s, g, dest).Some? { DeletionTargets(s, g, dest); }
      }
    case Restore(g) =>
  }

  /** One move keeps it exactly under its condition. */
  lemma MoveKeepsSingle(w: World, m: Move)
    requires Single(w) && Possible(w, m) && (w.open.Some? ==> w.open.value.removed <= w.tables.redirects)
    ensures Single(After(w, m)) <==> Free(w, m)
  {
    hide Next, Deleted, OneTarget, HasTarget;
    var w' := After(w, m);
    match m
    case Begin(step) =>
      StepTargets(w.tables, step);
      OutcomeOfBegin(w.tables, Next(w.tables, step));
      assert w'.Outcome() == Next(w.tables, step);
    case Insert(q) =>
      var r := w.checked[q];
      if r !in w.tables.redirects {
        OneMoreRow(w.tables, w'.tables, r);
        assert w'.Outcome().redirects == w.Outcome().redirects + {r};
        OneMoreRow(w.Outcome(), w'.Outcome(), r);
      }
    case _ =>
  }

  // ---------------------------------------------------------------- over whole runs

  ghost predicate SingleSoFar(trace: seq<World>, n: nat)
    requires n < |trace|
  {
    forall i | 0 <= i <= n :: Single(trace[i])
  }

  ghost predicate FreeSoFar(trace: seq<World>, moves: seq<Move>, n: nat)
    requires n < |trace| && n <= |moves|
  {
    forall k | 0 <= k < n :: Free(trace[k], moves[k])
  }

  /**
   In every run of deletions, restorations and added redirects no source ever has two targets, also
   once the transaction under way commits, if and only if no row is inserted for a source that has
   one, and no game that leads somewhere already is deleted in favour of another.
   */
  lemma {:induction false} OneTargetExactly(trace: seq<World>, moves: seq<Move>, n: nat)
    requires Run(trace, moves) && n < |trace|
    ensures SingleSoFar(trace, n) <==> FreeSoFar(trace, moves, n)
  {
    hide Single, Free, After, Possible;
    if n > 0 {
      OneTargetExactly(trace, moves, n - 1);
      RemovalsAreRows(trace, moves, n - 1);
      assert Possible(trace[n - 1], moves[n - 1]) && trace[n] == After(trace[n - 1], moves[n - 1]);
      if SingleSoFar(trace, n - 1) {
        MoveKeepsSingle(trace[n - 1], moves[n - 1]);
        assert Single(trace[n]) <==> Free(trace[n - 1], moves[n - 1]);
      }
    } else {
      StartsSingle(trace[0]);
    }
  }

  lemma StartsSingle(w: World)
    requires w.tables.redirects == {} && w.open.None?
    ensures Single(w)
  {
  }

  // ---------------------------------------------------------------- two targets

  function TwiceTrace(a: Id, b: Id, c: Id): seq<World> {
    var s0 := Tables(map[a := false, b := false, c := false], {});
    var s1 := Tables(map[a := true, b := false, c := false], {Redirect(b, a)});
    var s2 := Tables(map[a := true, b := false, c := false], {Redirect(b, a), Redirect(c, a)});
    [World(s0, None, map[]), World(s0, Some(Changed(s0, s1)), map[]), World(s1, None, map[]),
     World(s1, Some(Changed(s1, s2)), map[]), World(s2, None, map[])]
  }

  function TwiceMoves(a: Id, b: Id, c: Id): seq<Move> {
    [Begin(Delete(a, b)), Commit, Begin(Delete(a, c)), Commit]
  }

  /** A game that is deleted in favour of one game, and then again in favour of another, leads to both. */
  lemma DeletedTwiceLeadsToBoth(a: Id, b: Id, c: Id)
    requires a != b && b != c && a != c && b != "" && c != ""
    ensures Run(TwiceTrace(a, b, c), TwiceMoves(a, b, c)) && !OneTarget(TwiceTrace(a, b, c)[4].tables)
  {
    var trace := TwiceTrace(a, b, c);
    FirstOfTwo(a, b, c);
    SecondOfTwo(a, b, c);
    OutcomeOfBegin(trace[0].tables, trace[2].tables);
    OutcomeOfBegin(trace[2].tables, trace[4].tables);
    hide Next, OneTarget;
    assert trace[1].Outcome() == trace[2].tables && trace[3].Outcome() == trace[4].tables;
    TwoTargets(trace[4].tables, a, b, c);
  }

  lemma TwoTargets(s: Tables, a: Id, b: Id, c: Id)
    requires b != c && Redirect(b, a) in s.redirects && Redirect(c, a) in s.redirects
    ensures !OneTarget(s)
  {
  }

  lemma FirstOfTwo(a: Id, b: Id, c: Id)
    requires a != b && b != c && a != c && b != ""
    ensures Next(TwiceTrace(a, b, c)[0].tables, Delete(a, b)) == TwiceTrace(a, b, c)[2].tables
  {
    var s, s' := TwiceTrace(a, b, c)[0].tables, TwiceTrace(a, b, c)[2].tables;
    var gone := s.(deleted := s.deleted[a := true]);
    assert gone.deleted == s'.deleted;
    assert Added(gone, a, b) == Some(s') by { assert {} + {Redirect(b, a)} == s'.redirects; }
    assert Repointed(s'.redirects, a, b) == s'.redirects;
  }

  lemma SecondOfTwo(a: Id, b: Id, c: Id)
    requires a != b && b != c && a != c && c != ""
    ensures Next(TwiceTrace(a, b, c)[2].tables, Delete(a, c)) == TwiceTrace(a, b, c)[4].tables
  {
    var s, s' := TwiceTrace(a, b, c)[2].tables, TwiceTrace(a, b, c)[4].tables;
    var gone := s.(deleted := s.deleted[a := true]);
    assert gone == s by { assert gone.deleted == s.deleted; }
    assert Added(gone, a, c) == Some(s') by { assert {Redirect(b, a)} + {Redirect(c, a)} == s'.redirects; }
    assert Repointed(s'.redirects, a, c) == s'.redirects by {
      assert forall r :: r in Repointed(s'.redirects, a, c) <==> r in s'.redirects;
    }
  }

  // ---------------------------------------------------------------- what each operation does, row by row

  /** A redirect is added exactly if its source is not live, its target is, and it is not there yet. */
  lemma AdditionExactly(s: Tables, src: Id, dest: Id, r: Redirect)
    ensures Added(s, src, dest).Some? <==>
              !(src in s.deleted && !s.deleted[src]) && dest in s.deleted && !s.deleted[dest]
              && Redirect(dest, src) !in s.redirects
    ensures Added(s, src, dest).Some? ==>
              var s' := Added(s, src, dest).value;
              s'.deleted == s.deleted && (r in s'.redirects <==> r in s.redirects || r == Redirect(dest, src))
  {
  }

  /**
   When a game can be deleted, and what becomes of each redirect. In favour of another: that one is
   live and another, and no row would come to stand twice. The game leads there then, and so does every
   game that led to it. In favour of none: the redirects to it are dropped.
   */
  lemma DeletionExactly(s: Tables, g: Id, dest: Id, r: Redirect)
    ensures Deleted(s, g, dest).Some? <==>
              g in s.deleted &&
              (dest == "" ||
               (&& dest in s.deleted && !s.deleted[dest] && dest != g
                && Redirect(dest, g) !in s.redirects && Redirect(g, g) !in s.redirects
                && forall x :: !(Redirect(g, x) in s.redirects && Redirect(dest, x) in s.redirects)))
    ensures Deleted(s, g, dest).Some? ==>
              var s' := Deleted(s, g, dest).value;
              && s'.deleted == s.deleted[g := true]
              && (r in s'.redirects <==>
                    || (r in s.redirects && r.dest != g)
                    || (dest != "" && r.dest == dest && (r.src == g || Redirect(g, r.src) in s.redirects)))
  {
    if g in s.deleted && dest != "" { DeletionInFavour(s, g, dest, r); }
  }

  lemma DeletionInFavour(s: Tables, g: Id, dest: Id, r: Redirect)
    requires g in s.deleted && dest != ""
    ensures Deleted(s, g, dest).Some? <==>
              && dest in s.deleted && !s.deleted[dest] && dest != g
              && Redirect(dest, g) !in s.redirects && Redirect(g, g) !in s.redirects
              && forall x :: !(Redirect(g, x) in s.redirects && Redirect(dest, x) in s.redirects)
    ensures Deleted(s, g, dest).Some? ==>
              var s' := Deleted(s, g, dest).value;
              && s'.deleted == s.deleted[g := true]
              && (r in s'.redirects <==>
                    || (r in s.redirects && r.dest != g)
                    || (r.dest == dest && (r.src == g || Redirect(g, r.src) in s.redirects)))
  {
    var rows := s.redirects + {Redirect(dest, g)};
    if dest in s.deleted && !s.deleted[dest] && dest != g && Redirect(dest, g) !in s.redirects {
      ClashesExactly(s, g, dest);
      if Deleted(s, g, dest).Some? {
        RepointedRow(s, g, dest, r);
        if Redirect(g, r.src) in s.redirects { RepointedTo(rows, g, dest, r.src); }
      }
    }
  }

  lemma RepointedTo(rows: set<Redirect>, g: Id, dest: Id, src: Id)
    requires Redirect(g, src) in rows
    ensures Redirect(dest, src) in Repointed(rows, g, dest)
  {
  }

  lemma ClashesExactly(s: Tables, g: Id, dest: Id)
    requires dest != g
    ensures Clashes(s.redirects + {Redirect(dest, g)}, g, dest) <==>
              || Redirect(g, g) in s.redirects
              || exists x :: Redirect(g, x) in s.redirects && Redirect(dest, x) in s.redirects
  {
    var rows := s.redirects + {Redirect(dest, g)};
    if r :| r in rows && r.dest == g && Redirect(dest, r.src) in rows {
      assert r == Redirect(g, r.src);
    }
    if Redirect(g, g) in s.redirects { assert Redirect(g, g) in rows && Redirect(dest, g) in rows; }
    if x :| Redirect(g, x) in s.redirects && Redirect(dest, x) in s.redirects {
      assert Redirect(g, x) in rows && Redirect(dest, x) in rows;
    }
  }

  /** Any game there is can be restored: it is live then and leads nowhere, and nothing else changes. */
  lemma RestorationExactly(s: Tables, g: Id, r: Redirect)
    ensures Restored(s, g).Some? <==> g in s.deleted
    ensures Restored(s, g).Some? ==>
              var s' := Restored(s, g).value;
              && s'.deleted.Keys == s.deleted.Keys && g in s'.deleted && !s'.deleted[g]
              && (forall h | h in s.deleted && h != g :: s'.deleted[h] == s.deleted[h])
              && (r in s'.redirects <==> r in s.redirects && r.src != g)
  {
  }
}
