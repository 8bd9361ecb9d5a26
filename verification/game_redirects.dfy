/**
 The game redirect table (database/postgresdal.go) under deletion, restoration and added redirects
 (service/siteservice.go): a table that is always one hop deep, although games are deleted in
 favour of games that are deleted later.
 */
module GameRedirects {
  datatype Option<+T> = None | Some(value: T)

  type Id = string

  /** A row of game_redirect; destination and source together are the primary key. */
  datatype Redirect = Redirect(dest: Id, src: Id)

  /** `deleted` has an entry for every game there is. */
  datatype Tables = Tables(deleted: map<Id, bool>, redirects: set<Redirect>) {
    predicate Live(g: Id) {
      g in deleted && !deleted[g]
    }
  }

  // ---------------------------------------------------------------- the operations, None being an error

  function Added(s: Tables, src: Id, dest: Id): Option<Tables> {
    if s.Live(src) then None
    else if !s.Live(dest) then None
    else if Redirect(dest, src) in s.redirects then None
    else Some(s.(redirects := s.redirects + {Redirect(dest, src)}))
  }

  function Repointed(redirects: set<Redirect>, from: Id, to: Id): set<Redirect> {
    set r | r in redirects :: if r.dest == from then Redirect(to, r.src) else r
  }

  /** UPDATE … SET id fails when a source already redirects to the new destination as well. */
  predicate Clashes(redirects: set<Redirect>, from: Id, to: Id) {
    from != to && exists r | r in redirects :: r.dest == from && Redirect(to, r.src) in redirects
  }

  /** Deleting `g`, in favour of `dest` unless that is empty. */
  function Deleted(s: Tables, g: Id, dest: Id): Option<Tables> {
    if g !in s.deleted then None
    else
      var gone := s.(deleted := s.deleted[g := true]);
      if dest == "" then Some(gone.(redirects := set r | r in s.redirects && r.dest != g))
      else
        var added := Added(gone, g, dest);
        if added.None? || Clashes(added.value.redirects, g, dest) then None
        else Some(added.value.(redirects := Repointed(added.value.redirects, g, dest)))
  }

  function Restored(s: Tables, g: Id): Option<Tables> {
    if g !in s.deleted then None
    else Some(Tables(s.deleted[g := false], set r | r in s.redirects && r.src != g))
  }

  // ---------------------------------------------------------------- the same as transactions

  class Metadata {
    var deleted: map<Id, bool>
    var redirects: set<Redirect>

    function State(): Tables
      reads this
    {
      Tables(deleted, redirects)
    }

    constructor (games: set<Id>)
      ensures State() == Tables(map g | g in games :: false, {})
    {
      deleted := map g | g in games :: false;
      redirects := {};
    }

    method AddGameRedirect(src: Id, dest: Id) returns (ok: bool)
      modifies `redirects
      ensures ok <==> Added(old(State()), src, dest).Some?
      ensures State() == if ok then Added(old(State()), src, dest).value else old(State())
    {
      if src in deleted && !deleted[src] { return false; }
      if dest !in deleted { return false; }
      if deleted[dest] { return false; }
      if Redirect(dest, src) in redirects { return false; }
      redirects := redirects + {Redirect(dest, src)};
      return true;
    }

    method UpdateGameRedirects(src: Id, dest: Id) returns (ok: bool)
      modifies `redirects
      ensures ok <==> State().Live(dest) && !Clashes(old(redirects), src, dest)
      ensures redirects == if ok then Repointed(old(redirects), src, dest) else old(redirects)
    {
      if dest !in deleted { return false; }
      if deleted[dest] { return false; }
      if Clashes(redirects, src, dest) { return false; }
      redirects := Repointed(redirects, src, dest);
      return true;
    }

    /** DeleteGame under the metadata mutex; an error at any point rolls the transaction back. */
    method DeleteGame(g: Id, dest: Id) returns (ok: bool)
      modifies this
      ensures ok <==> Deleted(old(State()), g, dest).Some?
      ensures State() == if ok then Deleted(old(State()), g, dest).value else old(State())
    {
      var games, rows := deleted, redirects;
      if g !in deleted { return false; }
      deleted := deleted[g := true];
      if |dest| > 0 {
        ok := AddGameRedirect(g, dest);
        if ok { ok := UpdateGameRedirects(g, dest); }
        if !ok {
          deleted, redirects := games, rows;
        }
      } else {
        redirects := set r | r in redirects && r.dest != g;
        ok := true;
      }
    }

    method RestoreGame(g: Id) returns (ok: bool)
      modifies this
      ensures ok <==> Restored(old(State()), g).Some?
      ensures State() == if ok then Restored(old(State()), g).value else old(State())
    {
      if g !in deleted { return false; }
      deleted := deleted[g := false];
      redirects := set r | r in redirects && r.src != g;
      return true;
    }

    /** The first row found for this source, or nothing. */
    method GetGameRedirectTo(src: Id) returns (dest: Id)
      ensures dest != "" ==> Redirect(dest, src) in redirects
      ensures dest == "" ==> forall d | d != "" :: Redirect(d, src) !in redirects
    {
      if r :| r in redirects && r.src == src && r.dest != "" {
        return r.dest;
      }
      return "";
    }
  }

  // ---------------------------------------------------------------- targets live, sources not

  datatype Step = Add(src: Id, dest: Id) | Delete(g: Id, dest: Id) | Restore(g: Id)

  function Next(s: Tables, step: Step): Tables {
    var r := match step
      case Add(src, dest) => Added(s, src, dest)
      case Delete(g, dest) => Deleted(s, g, dest)
      case Restore(g) => Restored(s, g);
    if r.Some? then r.value else s
  }

  /** Every redirect leads from a game that is not live to one that is, so none is ever followed twice. */
  ghost predicate OneHop(s: Tables) {
    forall r | r in s.redirects :: s.Live(r.dest) && !s.Live(r.src)
  }

  lemma StepKeepsOneHop(s: Tables, step: Step)
    requires OneHop(s)
    ensures OneHop(Next(s, step))
  {
    if step.Delete? && step.dest != "" && Deleted(s, step.g, step.dest).Some? {
      DeletionKeepsOneHop(s, step.g, step.dest);
    }
  }

  lemma DeletionKeepsOneHop(s: Tables, g: Id, dest: Id)
    requires OneHop(s) && dest != "" && Deleted(s, g, dest).Some?
    ensures OneHop(Deleted(s, g, dest).value)
  {
    var gone := s.(deleted := s.deleted[g := true]);
    var added := Added(gone, g, dest).value;
    var s' := Deleted(s, g, dest).value;
    forall r | r in s'.redirects ensures s'.Live(r.dest) && !s'.Live(r.src) {
      var q :| q in added.redirects && r == if q.dest == g then Redirect(dest, q.src) else q;
      assert q == Redirect(dest, g) || q in s.redirects;
    }
  }

  /** What a deletion or restoration that has not committed yet will do. */
  datatype Change = Change(deleted: map<Id, bool>, removed: set<Redirect>, added: set<Redirect>)

  /**
   Deletions and restorations exclude each other by the metadata mutex, but adding a redirect takes no
   lock: it checks both games against what is committed and inserts its row later, and neither sees
   what a deletion or restoration under way has not committed. `checked` holds the adds in between.
   */
  datatype World = World(tables: Tables, open: Option<Change>, checked: map<int, Redirect>) {
    /** The tables once the open transaction commits; rows inserted meanwhile were not seen by it. */
    function Outcome(): Tables {
      if open.None? then tables
      else Tables(open.value.deleted, tables.redirects - open.value.removed + open.value.added)
    }
  }

  datatype Move =
    | Check(add: int, src: Id, dest: Id) | Insert(add: int)
    | Begin(step: Step) | Commit | Rollback

  ghost predicate Possible(w: World, m: Move) {
    match m
    case Check(q, _, _) => q !in w.checked
    case Insert(q) => q in w.checked && (w.open.Some? ==> w.checked[q] !in w.open.value.added)
    case Begin(step) => w.open.None? && !step.Add?
    case Commit => w.open.Some?
    case Rollback => w.open.Some?
  }

  function Changed(s: Tables, s': Tables): Change {
    Change(s'.deleted, s.redirects - s'.redirects, s'.redirects - s.redirects)
  }

  function After(w: World, m: Move): World
    requires Possible(w, m)
  {
    match m
    case Check(q, src, dest) =>
      if !w.tables.Live(src) && w.tables.Live(dest) then w.(checked := w.checked[q := Redirect(dest, src)]) else w
    case Insert(q) =>
      var w' := w.(checked := w.checked - {q});
      if w.checked[q] in w.tables.redirects then w'
      else w'.(tables := w.tables.(redirects := w.tables.redirects + {w.checked[q]}))
    case Begin(step) => w.(open := Some(Changed(w.tables, Next(w.tables, step))))
    case Commit => w.(tables := w.Outcome(), open := None)
    case Rollback => w.(open := None)
  }

  /** One hop deep now, and still so when the transaction under way commits. */
  ghost predicate Safe(w: World) {
    OneHop(w.tables) && OneHop(w.Outcome())
  }

  /** The move puts a new row into the table. */
  ghost predicate Inserts(w: World, m: Move) {
    m.Insert? && m.add in w.checked && w.checked[m.add] !in w.tables.redirects
  }

  /** The row's destination is live and its source is not, now and once the open transaction commits. */
  ghost predicate Timely(w: World, r: Redirect) {
    && w.tables.Live(r.dest) && !w.tables.Live(r.src)
    && w.Outcome().Live(r.dest) && !w.Outcome().Live(r.src)
  }

  lemma OutcomeOfBegin(s: Tables, s': Tables)
    ensures World(s, Some(Changed(s, s')), map[]).Outcome() == s'
  {
    var rows := s.redirects - (s.redirects - s'.redirects) + (s'.redirects - s.redirects);
    assert forall r :: r in rows <==> r in s'.redirects;
  }

  lemma MoveKeepsSafe(w: World, m: Move)
    requires Safe(w) && Possible(w, m) && (w.open.Some? ==> w.open.value.removed <= w.tables.redirects)
    ensures Safe(After(w, m)) <==> (Inserts(w, m) ==> Timely(w, w.checked[m.add]))
    ensures After(w, m).open.Some? ==> After(w, m).open.value.removed <= After(w, m).tables.redirects
  {
    hide Next;
    var w' := After(w, m);
    match m
    case Begin(step) =>
      StepKeepsOneHop(w.tables, step);
      OutcomeOfBegin(w.tables, Next(w.tables, step));
      assert w'.Outcome() == Next(w.tables, step);
    case Insert(q) =>
      var r := w.checked[q];
      if r !in w.tables.redirects {
        assert w'.tables.redirects == w.tables.redirects + {r};
        OneHopWithRow(w.tables, w'.tables, r);
        assert w'.Outcome().redirects == w.Outcome().redirects + {r};
        OneHopWithRow(w.Outcome(), w'.Outcome(), r);
      }
    case _ =>
  }

  lemma OneHopWithRow(s: Tables, s': Tables, r: Redirect)
    requires OneHop(s) && s'.deleted == s.deleted && s'.redirects == s.redirects + {r}
    ensures OneHop(s') <==> s.Live(r.dest) && !s.Live(r.src)
  {
    assert r in s'.redirects;
  }

  ghost predicate Run(trace: seq<World>, moves: seq<Move>) {
    && |trace| == |moves| + 1
    && trace[0].tables.redirects == {} && trace[0].open.None? && trace[0].checked == map[]
    && forall i | 0 <= i < |moves| :: Possible(trace[i], moves[i]) && trace[i + 1] == After(trace[i], moves[i])
  }

  ghost predicate SafeSoFar(trace: seq<World>, n: nat)
    requires n < |trace|
  {
    forall i | 0 <= i <= n :: Safe(trace[i])
  }

  ghost predicate TimelySoFar(trace: seq<World>, moves: seq<Move>, n: nat)
    requires n < |trace| && n <= |moves|
  {
    forall k | 0 <= k < n && Inserts(trace[k], moves[k]) :: Timely(trace[k], trace[k].checked[moves[k].add])
  }

  lemma {:induction false} RemovalsAreRows(trace: seq<World>, moves: seq<Move>, n: nat)
    requires Run(trace, moves) && n < |trace|
    ensures trace[n].open.Some? ==> trace[n].open.value.removed <= trace[n].tables.redirects
  {
    if n > 0 {
      hide Next;
      RemovalsAreRows(trace, moves, n - 1);
      assert trace[n] == After(trace[n - 1], moves[n - 1]);
    }
  }

  /**
   In every run of deletions, restorations and added redirects, whatever fails along the way, all
   targets stay live and all sources not, through every commit, if and only if every added row is
   timely when it is inserted: its destination is still live and its source still is not, and the
   deletion or restoration under way, if any, does not change that.
   */
  lemma {:induction false} RedirectsStayOneHop(trace: seq<World>, moves: seq<Move>, n: nat)
    requires Run(trace, moves) && n < |trace|
    ensures SafeSoFar(trace, n) <==> TimelySoFar(trace, moves, n)
  {
    if n > 0 {
      hide Safe, Timely, Inserts, After, Possible;
      RedirectsStayOneHop(trace, moves, n - 1);
      RemovalsAreRows(trace, moves, n - 1);
      assert Possible(trace[n - 1], moves[n - 1]) && trace[n] == After(trace[n - 1], moves[n - 1]);
      if Safe(trace[n - 1]) { MoveKeepsSafe(trace[n - 1], moves[n - 1]); }
    } else {
      assert Safe(trace[0]);
    }
  }

  /** The moves that can spoil a checked add: deleting its destination or restoring its source. */
  predicate Disturbs(m: Move, r: Redirect) {
    m.Begin? && ((m.step.Delete? && m.step.g == r.dest) || (m.step.Restore? && m.step.g == r.src))
  }

  lemma StaysTimely(w: World, m: Move, r: Redirect)
    requires Timely(w, r) && Possible(w, m) && !Disturbs(m, r)
    ensures Timely(After(w, m), r)
  {
    if m.Begin? {
      var s' := Next(w.tables, m.step);
      OutcomeOfBegin(w.tables, s');
      assert After(w, m).Outcome() == s';
    }
  }

  /**
   A row that is timely at some moment, its check say, stays so while no deletion of its destination and
   no restoration of its source begins. One already under way at that moment makes it untimely.
   */
  lemma {:induction false} QuietWindowIsTimely(trace: seq<World>, moves: seq<Move>, k: nat, n: nat, r: Redirect)
    requires Run(trace, moves) && k <= n < |trace|
    requires Timely(trace[k], r) && forall i | k <= i < n :: !Disturbs(moves[i], r)
    ensures Timely(trace[n], r)
    decreases n
  {
    if k < n {
      hide Timely, After, Possible;
      QuietWindowIsTimely(trace, moves, k, n - 1, r);
      assert Possible(trace[n - 1], moves[n - 1]) && trace[n] == After(trace[n - 1], moves[n - 1]);
      StaysTimely(trace[n - 1], moves[n - 1], r);
    }
  }

  /** A new game may take an id that redirects elsewhere: the table stays one hop exactly if it does not. */
  lemma CreationKeepsOneHop(s: Tables, g: Id)
    requires OneHop(s) && g !in s.deleted
    ensures OneHop(s.(deleted := s.deleted[g := false])) <==> forall r | r in s.redirects :: r.src != g
  {
    var s' := s.(deleted := s.deleted[g := false]);
    if r :| r in s.redirects && r.src == g {
      assert s'.Live(r.src);
    }
  }

  /**
   The destination is deleted, or the source restored, between the check and the insert; or the deletion is
   still open at the check.
   */
  function DeleteRace(src: Id, dest: Id): seq<Move> {
    [Check(1, src, dest), Begin(Delete(dest, "")), Commit, Insert(1)]
  }

  function RestoreRace(src: Id, dest: Id): seq<Move> {
    [Check(1, src, dest), Begin(Restore(src)), Commit, Insert(1)]
  }

  function OpenRace(src: Id, dest: Id): seq<Move> {
    [Begin(Delete(dest, "")), Check(1, src, dest), Insert(1), Commit]
  }

  function RaceTrace(s: Tables, s': Tables, r: Redirect): seq<World> {
    [World(s, None, map[]), World(s, None, map[1 := r]), World(s, Some(Changed(s, s')), map[1 := r]),
     World(s', None, map[1 := r]), World(s'.(redirects := {r}), None, map[])]
  }

  function OpenRaceTrace(s: Tables, s': Tables, r: Redirect): seq<World> {
    [World(s, None, map[]), World(s, Some(Changed(s, s')), map[]), World(s, Some(Changed(s, s')), map[1 := r]),
     World(s.(redirects := {r}), Some(Changed(s, s')), map[]), World(s'.(redirects := {r}), None, map[])]
  }

  /** Three ways in which an unlocked add leaves a redirect that leads to a deleted game, or from a live one. */
  lemma RacingAddBreaksOneHop(src: Id, dest: Id)
    requires src != dest && dest != ""
    ensures var s, r := Tables(map[src := true, dest := false], {}), Redirect(dest, src);
            var gone, back := Next(s, Delete(dest, "")), Next(s, Restore(src));
            && Run(RaceTrace(s, gone, r), DeleteRace(src, dest)) && !OneHop(RaceTrace(s, gone, r)[4].tables)
            && Run(RaceTrace(s, back, r), RestoreRace(src, dest)) && !OneHop(RaceTrace(s, back, r)[4].tables)
            && Run(OpenRaceTrace(s, gone, r), OpenRace(src, dest)) && !OneHop(OpenRaceTrace(s, gone, r)[4].tables)
  {
    var s, r := Tables(map[src := true, dest := false], {}), Redirect(dest, src);
    var gone, back := Next(s, Delete(dest, "")), Next(s, Restore(src));
    assert gone == Tables(map[src := true, dest := true], {}) && back == Tables(map[src := false, dest := false], {});
    RaceRuns(s, gone, r, Delete(dest, ""));
    RaceRuns(s, back, r, Restore(src));
    OpenRaceRuns(s, gone, r, Delete(dest, ""));
    assert r in {r};
  }

  lemma RaceRuns(s: Tables, s': Tables, r: Redirect, step: Step)
    requires s.redirects == {} && !s.Live(r.src) && s.Live(r.dest)
    requires !step.Add? && Next(s, step) == s' && s'.redirects == {}
    ensures Run(RaceTrace(s, s', r), [Check(1, r.src, r.dest), Begin(step), Commit, Insert(1)])
  {
    hide Next;
    OutcomeOfBegin(s, s');
    assert map[1 := r] - {1} == map[] && {} + {r} == {r};
    var trace := RaceTrace(s, s', r);
    assert trace[2].Outcome() == s';
  }

  lemma OpenRaceRuns(s: Tables, s': Tables, r: Redirect, step: Step)
    requires s.redirects == {} && !s.Live(r.src) && s.Live(r.dest)
    requires !step.Add? && Next(s, step) == s' && s'.redirects == {}
    ensures Run(OpenRaceTrace(s, s', r), [Begin(step), Check(1, r.src, r.dest), Insert(1), Commit])
  {
    hide Next;
    assert map[1 := r] - {1} == map[] && {} + {r} == {r};
    var trace := OpenRaceTrace(s, s', r);
    assert trace[3].Outcome() == s'.(redirects := {r});
  }

  // ---------------------------------------------------------------- the chain of deletions

  /** One deletion: the game, and the game it was deleted in favour of, if any. */
  datatype Deletion = Deletion(game: Id, dest: Id)

  /** Where the deletions, in the order they happened, lead from `g`: nowhere once a game went without a successor. */
  function Follow(log: seq<Deletion>, g: Id): Option<Id> {
    if log == [] then Some(g)
    else if log[0].game != g then Follow(log[1..], g)
    else if log[0].dest == "" then None
    else Follow(log[1..], log[0].dest)
  }

  lemma {:induction false} FollowOneMore(log: seq<Deletion>, e: Deletion, g: Id)
    ensures var end := Follow(log, g);
            Follow(log + [e], g) ==
              if end == Some(e.game) then (if e.dest == "" then None else Some(e.dest)) else end
  {
    if log == [] {
      assert [e][1..] == [];
    } else {
      assert (log + [e])[1..] == log[1..] + [e];
      FollowOneMore(log[1..], e, if log[0].game == g then log[0].dest else g);
    }
  }

  predicate Recorded(log: seq<Deletion>, g: Id) {
    exists i :: 0 <= i < |log| && log[i].game == g
  }

  lemma {:induction false} UnrecordedStays(log: seq<Deletion>, g: Id)
    requires !Recorded(log, g)
    ensures Follow(log, g) == Some(g)
  {
    if log != [] {
      assert log[0].game != g;
      assert forall i | 0 <= i < |log| - 1 :: log[1..][i] == log[i + 1];
      UnrecordedStays(log[1..], g);
    }
  }

  /** The games deleted so far, and where each leads; a live game stays itself. */
  ghost predicate Answers(s: Tables, log: seq<Deletion>) {
    && (forall g | g in s.deleted :: s.deleted[g] <==> Recorded(log, g))
    && (forall g | Recorded(log, g) :: g in s.deleted)
    && (forall g, d | Recorded(log, g) :: Redirect(d, g) in s.redirects <==> Follow(log, g) == Some(d))
    && (forall r | r in s.redirects :: Recorded(log, r.src))
  }

  lemma RecordedOneMore(log: seq<Deletion>, e: Deletion)
    ensures forall g :: Recorded(log + [e], g) <==> Recorded(log, g) || g == e.game
  {
    forall g ensures Recorded(log + [e], g) <==> Recorded(log, g) || g == e.game {
      if Recorded(log, g) {
        var i :| 0 <= i < |log| && log[i].game == g;
        assert (log + [e])[i].game == g;
      }
      assert (log + [e])[|log|] == e;
    }
  }

  lemma DeletionKeepsAnswers(s: Tables, log: seq<Deletion>, g: Id, dest: Id)
    requires OneHop(s) && Answers(s, log) && s.Live(g) && Deleted(s, g, dest).Some?
    ensures Answers(Deleted(s, g, dest).value, log + [Deletion(g, dest)])
  {
    hide Follow, Recorded;
    var e := Deletion(g, dest);
    var s' := Deleted(s, g, dest).value;
    RecordedOneMore(log, e);
    UnrecordedStays(log, g);
    forall x, d | Recorded(log + [e], x)
      ensures Redirect(d, x) in s'.redirects <==> Follow(log + [e], x) == Some(d)
    {
      FollowOneMore(log, e, x);
      RowsAfterDeletion(s, g, dest, x, d);
      assert x != g ==> (Redirect(g, x) in s.redirects <==> Follow(log, x) == Some(g));
    }
    forall r | r in s'.redirects ensures Recorded(log + [e], r.src) {
      RowsAfterDeletion(s, g, dest, r.src, r.dest);
      assert r.src != g ==> Redirect(r.dest, r.src) in s.redirects || Redirect(g, r.src) in s.redirects;
    }
  }

  lemma RowsAfterDeletion(s: Tables, g: Id, dest: Id, x: Id, d: Id)
    requires OneHop(s) && s.Live(g) && Deleted(s, g, dest).Some?
    ensures Redirect(d, x) in Deleted(s, g, dest).value.redirects <==>
            if x == g then dest != "" && d == dest
            else (Redirect(d, x) in s.redirects && d != g) || (dest != "" && d == dest && Redirect(g, x) in s.redirects)
  {
    var s' := Deleted(s, g, dest).value;
    if dest != "" {
      var rows := s.redirects + {Redirect(dest, g)};
      assert s'.redirects == Repointed(rows, g, dest);
      if x == g { assert Redirect(dest, g) in rows && dest != g; }
      if Redirect(g, x) in s.redirects { assert Redirect(dest, x) in Repointed(rows, g, dest); }
    }
  }

  /** A run in which live games are deleted, and nothing else succeeds. */
  ghost predicate DeletionRun(trace: seq<Tables>, log: seq<Deletion>) {
    && |trace| == |log| + 1
    && trace[0].redirects == {} && (forall g | g in trace[0].deleted :: !trace[0].deleted[g])
    && forall i | 0 <= i < |log| :: DeletesLive(trace[i], log[i], trace[i + 1])
  }

  ghost predicate DeletesLive(s: Tables, e: Deletion, s': Tables) {
    s.Live(e.game) && Deleted(s, e.game, e.dest) == Some(s')
  }

  lemma DeletionStep(s: Tables, log: seq<Deletion>, e: Deletion, s': Tables)
    requires OneHop(s) && Answers(s, log) && DeletesLive(s, e, s')
    ensures OneHop(s') && Answers(s', log + [e])
  {
    hide Answers, OneHop, Deleted;
    StepKeepsOneHop(s, Delete(e.game, e.dest));
    DeletionKeepsAnswers(s, log, e.game, e.dest);
  }

  /**
   Over deletions of live games the one-hop table answers what following the whole chain of
   deletions would: every deleted game leads to the one game at the end of its chain, if it has an
   end, and nowhere otherwise.
   */
  lemma {:induction false} OneHopAnswersTheChain(trace: seq<Tables>, log: seq<Deletion>, i: nat)
    requires DeletionRun(trace, log) && i < |trace|
    ensures OneHop(trace[i]) && Answers(trace[i], log[..i])
  {
    if i == 0 {
      assert log[..0] == [];
    } else {
      hide Answers, OneHop, DeletesLive;
      OneHopAnswersTheChain(trace, log, i - 1);
      DeletionStep(trace[i - 1], log[..i - 1], log[i - 1], trace[i]);
      assert log[..i] == log[..i - 1] + [log[i - 1]];
    }
  }
}
