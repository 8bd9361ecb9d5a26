/**
 The join list of the submission search (database/submission_search_query.go): only the tables
 that the conditions mention, and those needed to reach them, are joined; the submissions
 selected are the same as if every table were joined.
 */
module SearchJoins {
  import opened Sql
  import SearchText

  /** LEFT JOIN alias ON alias.key = from. */
  datatype Join = Join(alias: Alias, key: string, from: Column)

  const FULL: seq<Join> :=
    [Join(Cache, "fk_submission_id", Column(Submission, "id")),
     Join(OldestFile, "id", Column(Cache, "fk_oldest_file_id")),
     Join(NewestFile, "id", Column(Cache, "fk_newest_file_id")),
     Join(NewestComment, "id", Column(Cache, "fk_newest_comment_id")),
     Join(Uploader, "id", Column(OldestFile, "fk_user_id")),
     Join(Updater, "id", Column(NewestComment, "fk_user_id")),
     Join(Meta, "fk_submission_file_id", Column(NewestFile, "id"))]

  type Tables = map<Alias, seq<Row>>

  // ---------------------------------------------------------------- what a join list means

  ghost predicate Partner(db: Tables, j: Join, env: Joined, r: Row) {
    j.alias in db && r in db[j.alias] && Get(env, j.from) != Null && Cell(r, j.key) == Get(env, j.from)
  }

  /** One left join: with each partner, or on its own if there is none. Keys need not be unique. */
  ghost predicate Extends(db: Tables, j: Join, env: Joined, env': Joined) {
    || (exists r :: Partner(db, j, env, r) && env' == env[j.alias := r])
    || ((forall r :: !Partner(db, j, env, r)) && env' == env)
  }

  /** `env` is one of the joined rows that the list makes of `start`. */
  ghost predicate Yields(db: Tables, joins: seq<Join>, start: Joined, env: Joined) {
    if joins == [] then env == start
    else
      exists mid: Joined :: Yields(db, Front(joins), start, mid) && Extends(db, Last(joins), mid, env)
  }

  function Front(joins: seq<Join>): seq<Join>
    requires joins != []
  {
    joins[..|joins| - 1]
  }

  function Last(joins: seq<Join>): Join
    requires joins != []
  {
    joins[|joins| - 1]
  }

  /** A submission is selected when one of its joined rows satisfies the conditions; it is counted once. */
  ghost predicate Selects(db: Tables, joins: seq<Join>, submission: Row, preds: seq<Pred>, args: seq<Value>,
                          subs: Subscriptions)
    requires |args| == AllHoles(preds)
  {
    exists env: Joined :: Yields(db, joins, map[Submission := submission], env) && Where(preds, args, env, subs) == True
  }

  // ---------------------------------------------------------------- the pruned list

  function Kept(joins: seq<Join>, keep: set<Alias>): seq<Join> {
    if joins == [] then []
    else Kept(Front(joins), keep) + if Last(joins).alias in keep then [Last(joins)] else []
  }

  /** Every kept join starts from the submission or from another kept table. */
  ghost predicate Closed(joins: seq<Join>, keep: set<Alias>) {
    forall i | 0 <= i < |joins| && joins[i].alias in keep :: joins[i].from.alias in keep + {Submission}
  }

  /** What the tests on the query text work out to. */
  function Needed(mentioned: set<Alias>): set<Alias> {
    var newest := Meta in mentioned || NewestFile in mentioned;
    var oldest := Uploader in mentioned || OldestFile in mentioned;
    var comment := Updater in mentioned || NewestComment in mentioned;
    var cache := newest || oldest || comment || Cache in mentioned;
    (if cache then {Cache} else {}) + (if oldest then {OldestFile} else {}) + (if newest then {NewestFile} else {})
    + (if comment then {NewestComment} else {})
    + (mentioned * {Uploader, Updater, Meta})
  }

  lemma NeededIsClosed(mentioned: set<Alias>)
    requires Legacy !in mentioned
    ensures mentioned <= Needed(mentioned) + {Submission} && Closed(FULL, Needed(mentioned))
  {
    var keep := Needed(mentioned);
    forall a | a in mentioned ensures a in keep + {Submission} {
      match a
      case Submission => case Cache => case OldestFile => case NewestFile => case NewestComment =>
      case Uploader => case Updater => case Meta => case Legacy =>
    }
    forall i | 0 <= i < 7 && FULL[i].alias in keep ensures FULL[i].from.alias in keep + {Submission} {
    }
  }

  lemma ClosedMeans(keep: set<Alias>)
    requires Closed(FULL, keep)
    ensures OldestFile in keep || NewestFile in keep || NewestComment in keep ==> Cache in keep
    ensures (Uploader in keep ==> OldestFile in keep) && (Updater in keep ==> NewestComment in keep)
    ensures Meta in keep ==> NewestFile in keep
  {
    assert forall i | 0 <= i < 7 && FULL[i].alias in keep :: FULL[i].from.alias in keep + {Submission};
    assert FULL[1].alias == OldestFile && FULL[2].alias == NewestFile && FULL[3].alias == NewestComment;
    assert FULL[4].alias == Uploader && FULL[5].alias == Updater && FULL[6].alias == Meta;
  }

  /**
   Nothing is joined without need: any set of tables that covers the mentioned ones and can be joined
   contains these.
   */
  lemma NeededIsLeast(mentioned: set<Alias>, other: set<Alias>)
    requires mentioned <= other + {Submission} && Closed(FULL, other)
    ensures Needed(mentioned) <= other
  {
    hide Closed;
    ClosedMeans(other);
    assert forall a | a in mentioned && a != Submission :: a in other;
  }

  /** submissionSearchFrom: what is joined depends on the qualified names in the text of the conditions. */
  method SubmissionSearchFrom(expressions: string) returns (from: seq<Join>)
    ensures from == Kept(FULL, Needed(SearchText.Scanned(expressions)))
  {
    hide Contains;
    var meta := Contains(expressions, "meta.");
    var uploader := Contains(expressions, "uploader.");
    var updater := Contains(expressions, "updater.");
    var newest := meta || Contains(expressions, "newest_file.");
    var oldest := uploader || Contains(expressions, "oldest_file.");
    var comment := updater || Contains(expressions, "newest_comment.");
    var cache := newest || oldest || comment || Contains(expressions, "submission_cache.");
    QualifiersAre();
    from := JoinsOf(SearchText.Scanned(expressions), meta, uploader, updater, newest, oldest, comment, cache);
  }

  lemma QualifiersAre()
    ensures SearchText.Qualifier(Meta) == "meta." && SearchText.Qualifier(Uploader) == "uploader."
    ensures SearchText.Qualifier(Updater) == "updater." && SearchText.Qualifier(NewestFile) == "newest_file."
    ensures SearchText.Qualifier(OldestFile) == "oldest_file." &&
              SearchText.Qualifier(NewestComment) == "newest_comment."
    ensures SearchText.Qualifier(Cache) == "submission_cache."
  {
  }

  /** The loop over the table of joins. */
  method JoinsOf(ghost mentioned: set<Alias>, meta: bool, uploader: bool, updater: bool, newest: bool, oldest: bool,
                 comment: bool, cache: bool) returns (from: seq<Join>)
    requires meta == (Meta in mentioned) && uploader == (Uploader in mentioned) && updater == (Updater in mentioned)
    requires newest == (meta || NewestFile in mentioned) && oldest == (uploader || OldestFile in mentioned)
    requires comment == (updater || NewestComment in mentioned)
    requires cache == (newest || oldest || comment || Cache in mentioned)
    ensures from == Kept(FULL, Needed(mentioned))
  {
    var needed := [cache, oldest, newest, comment, uploader, updater, meta];
    ghost var keep := Needed(mentioned);
    assert forall i | 0 <= i < 7 :: needed[i] <==> FULL[i].alias in keep;
    hide Needed;
    from := [];
    for i := 0 to 7
      invariant from == Kept(FULL[..i], keep)
    {
      assert Front(FULL[..i + 1]) == FULL[..i] && Last(FULL[..i + 1]) == FULL[i];
      if needed[i] {
        from := from + [FULL[i]];
      }
    }
    assert FULL[..7] == FULL;
  }

  /** Every join starts from the submission or from a table joined before it. */
  ghost predicate InOrder(joins: seq<Join>) {
    forall i | 0 <= i < |joins| :: joins[i].from.alias in Before(joins[..i])
  }

  function Before(joins: seq<Join>): set<Alias> {
    {Submission} + set j | j in joins :: j.alias
  }

  lemma InOrderOneMore(joins: seq<Join>, j: Join)
    ensures InOrder(joins + [j]) <==> InOrder(joins) && j.from.alias in Before(joins)
  {
    hide Before;
    assert |joins + [j]| == |joins| + 1;
    assert (joins + [j])[..|joins|] == joins;
    assert forall i | 0 <= i < |joins| :: (joins + [j])[..i] == joins[..i] && (joins + [j])[i] == joins[i];
    if InOrder(joins + [j]) {
      assert (joins + [j])[|joins|].from.alias in Before((joins + [j])[..|joins|]);
      forall i | 0 <= i < |joins| ensures joins[i].from.alias in Before(joins[..i]) {
        assert (joins + [j])[i].from.alias in Before((joins + [j])[..i]);
      }
    }
  }

  lemma {:induction false} KeptStaysInOrder(joins: seq<Join>, keep: set<Alias>)
    requires InOrder(joins) && Closed(joins, keep)
    ensures InOrder(Kept(joins, keep))
    ensures forall a :: a in Before(Kept(joins, keep)) <==> a in Before(joins) && (a in keep || a == Submission)
  {
    hide InOrder, Before, Closed;
    if joins == [] {
      BeforeNothing();
    } else {
      var j, rest := Last(joins), Front(joins);
      assert joins == rest + [j];
      ClosedFront(joins, keep);
      InOrderOneMore(rest, j);
      KeptStaysInOrder(rest, keep);
      InOrderOneMore(Kept(rest, keep), j);
      BeforeOneMore(rest, j);
      BeforeOneMore(Kept(rest, keep), j);
      assert Kept(joins, keep) == if j.alias in keep then Kept(rest, keep) + [j] else Kept(rest, keep);
    }
  }

  lemma BeforeNothing()
    ensures InOrder([]) && forall a :: a in Before([]) <==> a == Submission
  {
    assert forall j: Join :: j !in [];
  }

  lemma ClosedFront(joins: seq<Join>, keep: set<Alias>)
    requires joins != [] && Closed(joins, keep)
    ensures Closed(Front(joins), keep) && (Last(joins).alias in keep ==> Last(joins).from.alias in keep + {Submission})
  {
  }

  lemma BeforeOneMore(joins: seq<Join>, j: Join)
    ensures Submission in Before(joins) && forall a :: a in Before(joins + [j]) <==> a in Before(joins) || a == j.alias
  {
  }

  /** In the pruned list, too, every table is joined after the one it hangs on. */
  lemma PrerequisitesComeFirst(mentioned: set<Alias>)
    requires Legacy !in mentioned
    ensures InOrder(Kept(FULL, Needed(mentioned)))
  {
    hide Needed;
    CoversMentioned(mentioned);
    FullIsInOrder();
    KeptStaysInOrder(FULL, Needed(mentioned));
  }

  lemma JoinedBefore(joins: seq<Join>, i: nat)
    requires i < |joins|
    ensures joins[i].alias in Before(joins)
  {
  }

  lemma FullIsInOrder()
    ensures InOrder(FULL)
    ensures forall a :: a in {OldestFile, NewestFile, NewestComment, Meta} ==> a in Before(FULL)
  {
    hide Before;
    forall i | 0 <= i < 7 ensures FULL[i].from.alias in Before(FULL[..i]) {
      if i == 0 { BeforeOneMore([], FULL[0]); assert FULL[..0] == []; }
      if 1 <= i <= 3 { JoinedBefore(FULL[..i], 0); }
      if i == 4 { JoinedBefore(FULL[..i], 1); }
      if i == 5 { JoinedBefore(FULL[..i], 3); }
      if i == 6 { JoinedBefore(FULL[..i], 2); }
    }
    JoinedBefore(FULL, 1);
    JoinedBefore(FULL, 2);
    JoinedBefore(FULL, 3);
    JoinedBefore(FULL, 6);
  }

  // ---------------------------------------------------------------- pruning keeps the selection

  function Restrict(env: Joined, keep: set<Alias>): Joined {
    map a | a in env && (a in keep || a == Submission) :: env[a]
  }

  lemma SameFrom(env: Joined, keep: set<Alias>, j: Join)
    requires j.from.alias in keep + {Submission}
    ensures Get(Restrict(env, keep), j.from) == Get(env, j.from)
  {
  }

  lemma RestrictExtends(db: Tables, j: Join, mid: Joined, env: Joined, keep: set<Alias>)
    requires j.alias in keep && j.from.alias in keep + {Submission} && Extends(db, j, mid, env)
    ensures Extends(db, j, Restrict(mid, keep), Restrict(env, keep))
  {
    SameFrom(mid, keep, j);
    var mid' := Restrict(mid, keep);
    assert forall r :: Partner(db, j, mid', r) <==> Partner(db, j, mid, r);
    if r :| Partner(db, j, mid, r) && env == mid[j.alias := r] {
      assert Restrict(env, keep) == mid'[j.alias := r];
    }
  }

  lemma RestrictIgnores(db: Tables, j: Join, mid: Joined, env: Joined, keep: set<Alias>)
    requires j.alias !in keep && j.alias != Submission && Extends(db, j, mid, env)
    ensures Restrict(env, keep) == Restrict(mid, keep)
  {
  }

  /** Every row of the full join, cut down to the kept tables, is a row of the pruned join. */
  lemma {:induction false} FullRowIsPrunedRow(db: Tables, joins: seq<Join>, keep: set<Alias>, start: Joined,
                                              env: Joined)
    requires Closed(joins, keep) && Restrict(start, keep) == start && Yields(db, joins, start, env)
    requires forall i | 0 <= i < |joins| :: joins[i].alias != Submission
    ensures Yields(db, Kept(joins, keep), start, Restrict(env, keep))
  {
    if joins != [] {
      hide Extends, Restrict;
      var j, rest := Last(joins), Front(joins);
      var mid: Joined :| Yields(db, rest, start, mid) && Extends(db, j, mid, env);
      FullRowIsPrunedRow(db, rest, keep, start, mid);
      if j.alias in keep {
        RestrictExtends(db, j, mid, env, keep);
        assert Front(Kept(joins, keep)) == Kept(rest, keep);
      } else {
        RestrictIgnores(db, j, mid, env, keep);
        assert Kept(joins, keep) == Kept(rest, keep);
      }
    }
  }

  lemma SomethingExtends(db: Tables, j: Join, mid: Joined) returns (env: Joined)
    ensures Extends(db, j, mid, env)
  {
    if r :| Partner(db, j, mid, r) {
      env := mid[j.alias := r];
    } else {
      env := mid;
    }
  }

  lemma LiftExtends(db: Tables, j: Join, mid: Joined, cut: Joined, keep: set<Alias>) returns (env: Joined)
    requires j.alias in keep && j.from.alias in keep + {Submission}
    requires Extends(db, j, Restrict(mid, keep), cut)
    ensures Extends(db, j, mid, env) && Restrict(env, keep) == cut
  {
    SameFrom(mid, keep, j);
    var mid' := Restrict(mid, keep);
    assert forall r :: Partner(db, j, mid', r) <==> Partner(db, j, mid, r);
    if r :| Partner(db, j, mid', r) && cut == mid'[j.alias := r] {
      env := mid[j.alias := r];
      assert Restrict(env, keep) == cut;
    } else {
      env := mid;
    }
  }

  /** Every row of the pruned join is a row of the full join cut down to the kept tables. */
  lemma {:induction false} PrunedRowIsFullRow(db: Tables, joins: seq<Join>, keep: set<Alias>, start: Joined,
                                              cut: Joined)
    returns (env: Joined)
    requires Closed(joins, keep) && Restrict(start, keep) == start && Yields(db, Kept(joins, keep), start, cut)
    requires forall i | 0 <= i < |joins| :: joins[i].alias != Submission
    ensures Yields(db, joins, start, env) && Restrict(env, keep) == cut
  {
    if joins == [] {
      env := start;
    } else {
      hide Extends, Restrict;
      var j, rest := Last(joins), Front(joins);
      var kept := Kept(joins, keep);
      if j.alias in keep {
        assert Front(kept) == Kept(rest, keep) && Last(kept) == j;
        var mid': Joined :| Yields(db, Kept(rest, keep), start, mid') && Extends(db, j, mid', cut);
        var mid := PrunedRowIsFullRow(db, rest, keep, start, mid');
        env := LiftExtends(db, j, mid, cut, keep);
      } else {
        assert kept == Kept(rest, keep);
        var mid := PrunedRowIsFullRow(db, rest, keep, start, cut);
        env := SomethingExtends(db, j, mid);
        RestrictIgnores(db, j, mid, env, keep);
      }
    }
  }

  lemma RestrictAgrees(env: Joined, keep: set<Alias>, aliases: set<Alias>)
    requires aliases <= keep + {Submission}
    ensures Agree(env, Restrict(env, keep), aliases)
  {
  }

  /**
   Join pruning preserves meaning: for any conditions, the submissions selected through the pruned
   join list are those selected by joining every table, even with several cache or metadata rows
   for one submission. The tables may be mentioned by more than these conditions.
   */
  lemma PruningKeepsSelection(db: Tables, mentioned: set<Alias>, submission: Row, preds: seq<Pred>, args: seq<Value>,
                              subs: Subscriptions)
    requires |args| == AllHoles(preds) && AllMentions(preds) <= mentioned + {Submission} && Legacy !in mentioned
    ensures Selects(db, Kept(FULL, Needed(mentioned)), submission, preds, args, subs)
       <==> Selects(db, FULL, submission, preds, args, subs)
  {
    hide Where, Yields, Restrict, Kept, Needed;
    var keep, start := Needed(mentioned), map[Submission := submission];
    CoversMentioned(mentioned);
    StartIsKept(submission, keep);
    if Selects(db, FULL, submission, preds, args, subs) {
      var env: Joined :| Yields(db, FULL, start, env) && Where(preds, args, env, subs) == True;
      FullRowIsPrunedRow(db, FULL, keep, start, env);
      RestrictAgrees(env, keep, AllMentions(preds));
      WhereDependsOnMentions(preds, args, env, Restrict(env, keep), subs);
    }
    if Selects(db, Kept(FULL, keep), submission, preds, args, subs) {
      var cut: Joined :| Yields(db, Kept(FULL, keep), start, cut) && Where(preds, args, cut, subs) == True;
      var env := PrunedRowIsFullRow(db, FULL, keep, start, cut);
      RestrictAgrees(env, keep, AllMentions(preds));
      WhereDependsOnMentions(preds, args, env, cut, subs);
    }
  }

  lemma CoversMentioned(mentioned: set<Alias>)
    requires Legacy !in mentioned
    ensures mentioned <= Needed(mentioned) + {Submission} && Closed(FULL, Needed(mentioned))
    ensures forall i | 0 <= i < |FULL| :: FULL[i].alias != Submission
  {
    NeededIsClosed(mentioned);
  }

  lemma StartIsKept(submission: Row, keep: set<Alias>)
    ensures var start: Joined := map[Submission := submission]; Restrict(start, keep) == start
  {
  }
}
