/**
 Concurrent history writers. The database keeps, for each submission, its history rows and its
 stored cache rows; transactions read from the snapshot taken at their first consistent read
 (REPEATABLE READ) and see their own changes on top of it, while their writes land on whatever is
 committed. The discipline of database/submission_locks.go makes every stored row the derivation
 of its history, in every interleaving.
 */
module ReviewTransactions {
  import opened ReviewHistory
  import Machine = ReviewMachine

  /** A submission as committed. The cache table has no unique key, so there may be several rows. */
  datatype Sub = Sub(history: History, rows: seq<Row>, live: bool)

  const BLANK: Sub := Sub(History([], []), [], true)

  datatype Edit =
    | AddComment(comment: Comment) | AddFile(file: File) | Bury(comment_id: int) | Shred(file_id: int) | EraseAll

  function Applied(h: History, edits: seq<Edit>): History {
    if edits == [] then h
    else
      var before := Applied(h, edits[..|edits| - 1]);
      match edits[|edits| - 1]
      case AddComment(c) => before.(comments := before.comments + [c])
      case AddFile(f) => before.(files := before.files + [f])
      case Bury(id) => Machine.Buried(before, id)
      case Shred(id) => Machine.Shredded(before, id)
      case EraseAll => Machine.Erased(before)
  }

  /** A transaction's own uncommitted changes to one submission; `row` is the last cache row it computed. */
  datatype Work = Work(edits: seq<Edit>, inserted: bool, row: Option<Row>, stale: bool)

  datatype Tx = Tx(locks: set<int>, snapshot: Option<map<int, Sub>>, work: map<int, Work>) {
    function On(sid: int): Work {
      if sid in work then work[sid] else Work([], false, None, false)
    }

    /** What a consistent read sees of the committed state. */
    function View(sid: int): Sub {
      if snapshot.Some? && sid in snapshot.value then snapshot.value[sid] else BLANK
    }

    function With(sid: int, w: Work): Tx {
      this.(work := work[sid := w])
    }
  }

  datatype State = State(subs: map<int, Sub>, txs: map<int, Tx>)

  datatype Step =
    | Begin(t: int) | Lock(t: int, sid: int) | Create(t: int, sid: int) | Snapshot(t: int)
    | Write(t: int, sid: int, edit: Edit) | InsertRow(t: int, sid: int) | Recompute(t: int, sid: int)
    | Commit(t: int) | Rollback(t: int)

  function Current(subs: map<int, Sub>, sid: int): Sub {
    if sid in subs then subs[sid] else BLANK
  }

  /** One submission after a commit. The cache UPDATE writes every row the table has for it. */
  function Landed(base: Sub, w: Work): Sub {
    var rows := if w.inserted then base.rows + [Derive(History([], []))] else base.rows;
    Sub(Applied(base.history, w.edits),
        if w.row.Some? then seq(|rows|, _ => w.row.value) else rows,
        base.live && EraseAll !in w.edits)
  }

  function Committed(subs: map<int, Sub>, tx: Tx): map<int, Sub> {
    map sid | sid in subs.Keys + tx.work.Keys ::
      if sid in tx.work then Landed(Current(subs, sid), tx.work[sid]) else subs[sid]
  }

  /** What the database allows: a locking read sees the latest committed row, and waits for other holders. */
  ghost predicate Possible(s: State, step: Step) {
    match step
    case Begin(t) => t !in s.txs
    case Lock(t, sid) => t in s.txs && sid in s.subs && s.subs[sid].live && FreeFor(s, t, sid)
    case Create(t, sid) => t in s.txs && sid !in s.subs && forall u | u in s.txs :: sid !in s.txs[u].locks
    case Snapshot(t) => t in s.txs && s.txs[t].snapshot.None?
    case Write(t, _, _) => t in s.txs
    case InsertRow(t, sid) => t in s.txs && s.txs[t].snapshot.Some?
    case Recompute(t, sid) => t in s.txs && s.txs[t].snapshot.Some?
    case Commit(t) => t in s.txs
    case Rollback(t) => t in s.txs
  }

  ghost predicate FreeFor(s: State, t: int, sid: int) {
    forall u | u in s.txs && u != t :: sid !in s.txs[u].locks
  }

  /**
   The protocol every writer follows: lock before the first consistent read, change only what is
   locked, insert a cache row only where none is seen, and recompute after the last change.
   */
  ghost predicate Disciplined(s: State, step: Step)
    requires Possible(s, step)
  {
    match step
    case Lock(t, _) => s.txs[t].snapshot.None?
    case Write(t, sid, _) => sid in s.txs[t].locks
    case InsertRow(t, sid) => sid in s.txs[t].locks && s.txs[t].View(sid).rows == [] && !s.txs[t].On(sid).inserted
    case Recompute(t, sid) => sid in s.txs[t].locks
    case Commit(t) => forall sid | sid in s.txs[t].work :: !s.txs[t].work[sid].stale
    case _ => true
  }

  function Next(s: State, step: Step): State
    requires Possible(s, step)
  {
    match step
    case Begin(t) => s.(txs := s.txs[t := Tx({}, None, map[])])
    case Lock(t, sid) => s.(txs := s.txs[t := s.txs[t].(locks := s.txs[t].locks + {sid})])
    case Create(t, sid) =>
      var tx := s.txs[t].(locks := s.txs[t].locks + {sid});
      s.(txs := s.txs[t := tx.With(sid, Work([], true, None, true))])
    case Snapshot(t) => s.(txs := s.txs[t := s.txs[t].(snapshot := Some(s.subs))])
    case Write(t, sid, edit) =>
      var w := s.txs[t].On(sid);
      s.(txs := s.txs[t := s.txs[t].With(sid, w.(edits := w.edits + [edit], stale := true))])
    case InsertRow(t, sid) => s.(txs := s.txs[t := s.txs[t].With(sid,
                                                                 s.txs[t].On(sid).(inserted := true, stale := true))])
    case Recompute(t, sid) =>
      var w := s.txs[t].On(sid);
      var row := Derive(Applied(s.txs[t].View(sid).history, w.edits));
      s.(txs := s.txs[t := s.txs[t].With(sid, w.(row := Some(row), stale := false))])
    case Commit(t) => State(Committed(s.subs, s.txs[t]), s.txs - {t})
    case Rollback(t) => s.(txs := s.txs - {t})
  }

  // ---------------------------------------------------------------- the invariant

  /** A holder sees the committed state of what it holds, and its fresh rows are the right ones to store. */
  ghost predicate Sound(subs: map<int, Sub>, tx: Tx) {
    && tx.work.Keys <= tx.locks && (tx.snapshot.Some? ==> tx.snapshot.value.Keys <= subs.Keys)
    && (forall sid | sid in tx.locks && tx.snapshot.Some? :: tx.View(sid) == Current(subs, sid))
    && (forall sid | sid in tx.work && !tx.work[sid].stale ::
          tx.work[sid].row == Some(Derive(Applied(Current(subs, sid).history, tx.work[sid].edits))))
    && (forall sid | sid in tx.work && tx.work[sid].inserted :: Current(subs, sid).rows == [])
  }

  ghost predicate Inv(s: State) {
    && (forall t, u | t in s.txs && u in s.txs && t != u :: s.txs[t].locks !! s.txs[u].locks)
    && (forall t | t in s.txs :: Sound(s.subs, s.txs[t]))
    && (forall t, sid | t in s.txs && sid in s.txs[t].locks && sid !in s.subs ::
          sid in s.txs[t].work && s.txs[t].work[sid].inserted)
  }

  lemma OneTxSound(s: State, step: Step)
    requires Inv(s) && Possible(s, step) && Disciplined(s, step)
    requires !step.Commit? && !step.Rollback?
    ensures Sound(s.subs, Next(s, step).txs[step.t])
  {
    hide Derive, Applied;
    assert !step.Begin? ==> Sound(s.subs, s.txs[step.t]);
  }

  /** Committing changes only what the transaction holds. */
  lemma CommitTouchesHeld(s: State, t: int, sid: int)
    requires Inv(s) && t in s.txs && sid !in s.txs[t].locks
    ensures Current(Committed(s.subs, s.txs[t]), sid) == Current(s.subs, sid)
    ensures sid in Committed(s.subs, s.txs[t]) <==> sid in s.subs
  {
    hide Derive, Applied, Landed;
    assert Sound(s.subs, s.txs[t]);
  }

  lemma CommitForgetsNothing(subs: map<int, Sub>, tx: Tx)
    ensures subs.Keys <= Committed(subs, tx).Keys
  {
  }

  lemma OthersStaySound(s: State, t: int, u: int)
    requires Inv(s) && t in s.txs && u in s.txs && u != t
    ensures Sound(Committed(s.subs, s.txs[t]), s.txs[u])
  {
    hide Derive, Applied, Committed, Current;
    forall sid | sid in s.txs[u].locks ensures Current(Committed(s.subs, s.txs[t]), sid) == Current(s.subs, sid) {
      assert sid !in s.txs[t].locks;
      CommitTouchesHeld(s, t, sid);
    }
    assert Sound(s.subs, s.txs[u]);
    CommitForgetsNothing(s.subs, s.txs[t]);
  }

  lemma StepKeepsInv(s: State, step: Step)
    requires Inv(s) && Possible(s, step) && Disciplined(s, step)
    ensures Inv(Next(s, step))
  {
    hide Derive, Applied, Sound, Committed;
    var s' := Next(s, step);
    if step.Commit? {
      forall u | u in s'.txs ensures Sound(s'.subs, s'.txs[u]) {
        OthersStaySound(s, step.t, u);
      }
      forall u, sid | u in s'.txs && sid in s'.txs[u].locks && sid !in s'.subs
        ensures sid in s'.txs[u].work && s'.txs[u].work[sid].inserted
      {
        assert sid !in s.txs[step.t].locks;
        CommitTouchesHeld(s, step.t, sid);
      }
    } else if !step.Rollback? {
      OneTxSound(s, step);
    }
  }

  // ---------------------------------------------------------------- coherence

  /** Exactly one stored row, and it is the derivation of the history. */
  ghost predicate Coherent(sub: Sub) {
    |sub.rows| == 1 && sub.rows[0] == Derive(sub.history)
  }

  /** A commit leaves coherent whatever it wrote, unless the cache table already held several rows for it. */
  lemma CommitMakesCoherent(s: State, t: int, sid: int)
    requires Inv(s) && t in s.txs && Disciplined(s, Commit(t)) && sid in s.txs[t].work
    requires |Current(s.subs, sid).rows| <= 1
    requires Current(s.subs, sid).rows == [] ==> s.txs[t].work[sid].inserted
    ensures Coherent(Next(s, Commit(t)).subs[sid])
  {
    hide Derive, Applied;
    assert Sound(s.subs, s.txs[t]);
  }

  /** No disciplined step makes a coherent submission incoherent, and new ones are born coherent. */
  lemma StepKeepsCoherence(s: State, step: Step, sid: int)
    requires Inv(s) && Possible(s, step) && Disciplined(s, step)
    requires sid in s.subs ==> Coherent(s.subs[sid])
    requires sid in Next(s, step).subs
    ensures Coherent(Next(s, step).subs[sid])
  {
    hide Derive, Applied;
    if step.Commit? {
      if sid in s.txs[step.t].work {
        assert Sound(s.subs, s.txs[step.t]);
        CommitMakesCoherent(s, step.t, sid);
      }
    }
  }

  // ---------------------------------------------------------------- runs

  ghost predicate Run(trace: seq<State>, steps: seq<Step>) {
    && |trace| == |steps| + 1 && trace[0].txs == map[]
    && forall i | 0 <= i < |steps| ::
         Possible(trace[i], steps[i]) && Disciplined(trace[i], steps[i]) && trace[i + 1] == Next(trace[i], steps[i])
  }

  lemma {:induction false} RunKeepsInv(trace: seq<State>, steps: seq<Step>, i: nat)
    requires Run(trace, steps) && i < |trace|
    ensures Inv(trace[i])
  {
    if i > 0 {
      hide Inv, Next, Possible, Disciplined;
      RunKeepsInv(trace, steps, i - 1);
      StepKeepsInv(trace[i - 1], steps[i - 1]);
    }
  }

  /** Once coherent, coherent at every later moment of every interleaving. */
  lemma {:induction false} CoherenceLasts(trace: seq<State>, steps: seq<Step>, i: nat, j: nat, sid: int)
    requires Run(trace, steps) && i <= j < |trace| && sid in trace[j].subs
    requires sid in trace[i].subs ==> Coherent(trace[i].subs[sid])
    ensures Coherent(trace[j].subs[sid])
    decreases j
  {
    if i < j {
      hide Inv, Possible, Disciplined, Coherent, Committed;
      var before := trace[j - 1];
      RunKeepsInv(trace, steps, j - 1);
      if sid in before.subs {
        CoherenceLasts(trace, steps, i, j - 1, sid);
      }
      StepKeepsCoherence(before, steps[j - 1], sid);
    }
  }

  /**
   Cache-row coherence: if every stored row was right to begin with, then in every committed state
   of every interleaving of disciplined transactions each submission has exactly one cache row and
   it is the derivation of its live files and comments.
   */
  lemma EveryCommittedRowIsDerived(trace: seq<State>, steps: seq<Step>, i: nat)
    requires Run(trace, steps) && i < |trace|
    requires forall sid | sid in trace[0].subs :: Coherent(trace[0].subs[sid])
    ensures forall sid | sid in trace[i].subs :: Coherent(trace[i].subs[sid])
  {
    forall sid | sid in trace[i].subs ensures Coherent(trace[i].subs[sid]) {
      CoherenceLasts(trace, steps, 0, i, sid);
    }
  }

  /** What a transaction reads about a submission it holds is what is committed, so its checks are current. */
  lemma HoldersReadCommitted(trace: seq<State>, steps: seq<Step>, i: nat, t: int, sid: int)
    requires Run(trace, steps) && i < |trace|
    requires t in trace[i].txs && sid in trace[i].txs[t].locks && trace[i].txs[t].snapshot.Some?
    ensures trace[i].txs[t].View(sid) == Current(trace[i].subs, sid)
    ensures forall u | u in trace[i].txs && u != t :: sid !in trace[i].txs[u].work
  {
    RunKeepsInv(trace, steps, i);
    assert Sound(trace[i].subs, trace[i].txs[t]);
    forall u | u in trace[i].txs && u != t ensures sid !in trace[i].txs[u].work {
      assert Sound(trace[i].subs, trace[i].txs[u]);
      assert trace[i].txs[u].locks !! trace[i].txs[t].locks;
    }
  }

  // ---------------------------------------------------------------- repair

  /** One more step of the protocol. */
  method Advance(s: State, step: Step) returns (s': State)
    requires Inv(s) && Possible(s, step) && Disciplined(s, step)
    ensures Inv(s') && s' == Next(s, step)
  {
    StepKeepsInv(s, step);
    s' := Next(s, step);
  }

  lemma CommitOfOne(s: State, t: int, sid: int)
    requires t in s.txs && sid in s.subs && s.subs[sid].live
    requires s.txs[t].work.Keys == {sid} && s.txs[t].work[sid].edits == []
    requires s.txs[t].work[sid].row == Some(Derive(s.subs[sid].history))
    requires |s.subs[sid].rows| + (if s.txs[t].work[sid].inserted then 1 else 0) == 1
    ensures Committed(s.subs, s.txs[t])
         == s.subs[sid := Sub(s.subs[sid].history, [Derive(s.subs[sid].history)], true)]
  {
    hide Derive;
    var base, w := s.subs[sid], s.txs[t].work[sid];
    assert Applied(base.history, w.edits) == base.history;
    assert Landed(base, w).rows == [Derive(base.history)];
    assert Landed(base, w) == Sub(base.history, [Derive(base.history)], true);
  }

  /**
   RebuildSubmissionCacheTable, as steps of the protocol. However wrong the submission's row was,
   or if it had none, it is right from the commit on; several rows are refused.
   */
  method RebuildSubmissionCacheTable(s: State, t: int, sid: int) returns (s': State, ok: bool)
    requires Inv(s) && t !in s.txs && forall u | u in s.txs :: sid !in s.txs[u].locks
    ensures Inv(s') && s'.txs == s.txs
    ensures ok <==> sid in s.subs && s.subs[sid].live && |s.subs[sid].rows| <= 1
    ensures !ok ==> s'.subs == s.subs
    ensures ok ==> s'.subs == s.subs[sid := Sub(s.subs[sid].history, [Derive(s.subs[sid].history)], true)]
  {
    hide Derive, Inv, Sound;
    s' := Advance(s, Begin(t));
    if sid !in s.subs || !s.subs[sid].live {
      s' := Advance(s', Rollback(t));
      return s', false;
    }
    s' := Advance(s', Lock(t, sid));
    s' := Advance(s', Snapshot(t));
    var count := |s'.txs[t].View(sid).rows|;
    if count > 1 {
      s' := Advance(s', Rollback(t));
      return s', false;
    }
    if count == 0 {
      s' := Advance(s', InsertRow(t, sid));
    }
    assert s'.txs[t].On(sid).edits == [];
    s' := Advance(s', Recompute(t, sid));
    CommitOfOne(s', t, sid);
    s' := Advance(s', Commit(t));
    ok := true;
  }

  // ---------------------------------------------------------------- why the lock comes first

  /** A transaction that has read before it locks. */
  function LateLock(approval: Comment, remark: Comment): seq<Step> {
    [Begin(1), Snapshot(1),
     Begin(2), Lock(2, 0), Snapshot(2), Write(2, 0, AddComment(approval)), Recompute(2, 0), Commit(2),
     Lock(1, 0), Write(1, 0, AddComment(remark)), Recompute(1, 0), Commit(1)]
  }

  /** The states of that run, from one submission with an empty history. */
  function LateLockTrace(approval: Comment, remark: Comment): seq<State> {
    var none := History([], []);
    var one, two := History([], [approval]), History([], [remark]);
    var before := map[0 := Sub(none, [Derive(none)], true)];
    var after := map[0 := Sub(one, [Derive(one)], true)];
    var last := map[0 := Sub(History([], [approval, remark]), [Derive(two)], true)];
    var idle := Tx({}, None, map[]);
    var reader := Tx({}, Some(before), map[]);
    var wrote := (c: Comment) => map[0 := Work([AddComment(c)], false, None, true)];
    var computed := (c: Comment) => map[0 := Work([AddComment(c)], false, Some(Derive(History([], [c]))), false)];
    [State(before, map[]), State(before, map[1 := idle]), State(before, map[1 := reader]),
     State(before, map[1 := reader, 2 := idle]),
     State(before, map[1 := reader, 2 := Tx({0}, None, map[])]),
     State(before, map[1 := reader, 2 := Tx({0}, Some(before), map[])]),
     State(before, map[1 := reader, 2 := Tx({0}, Some(before), wrote(approval))]),
     State(before, map[1 := reader, 2 := Tx({0}, Some(before), computed(approval))]),
     State(after, map[1 := reader]),
     State(after, map[1 := Tx({0}, Some(before), map[])]),
     State(after, map[1 := Tx({0}, Some(before), wrote(remark))]),
     State(after, map[1 := Tx({0}, Some(before), computed(remark))]),
     State(last, map[])]
  }

  lemma OneCommentApplied(h: History, c: Comment)
    ensures Applied(h, [AddComment(c)]) == h.(comments := h.comments + [c])
  {
    assert [AddComment(c)][..0] == [];
  }

  lemma OneCommentCommitted(base: Sub, c: Comment, row: Row)
    requires base.live && |base.rows| == 1
    ensures Landed(base, Work([AddComment(c)], false, Some(row), false))
         == Sub(base.history.(comments := base.history.comments + [c]), [row], true)
  {
    OneCommentApplied(base.history, c);
  }

  /** One step of a run that the database allows, disciplined or not as said. */
  ghost predicate Moves(s: State, step: Step, s': State, disciplined: bool) {
    Possible(s, step) && s' == Next(s, step) && Disciplined(s, step) == disciplined
  }

  lemma CommentCommit(s: State, t: int, base: Sub, c: Comment, row: Row, s': State)
    requires t in s.txs && s.subs == map[0 := base] && base.live && |base.rows| == 1
    requires s.txs[t].work == map[0 := Work([AddComment(c)], false, Some(row), false)]
    requires s' == State(map[0 := Sub(base.history.(comments := base.history.comments + [c]), [row], true)],
                         s.txs - {t})
    ensures Moves(s, Commit(t), s', true)
  {
    hide Derive, Applied, Landed;
    OneCommentCommitted(base, c, row);
    assert s.txs[t].work.Keys == {0} && s.subs.Keys == {0};
    assert Committed(s.subs, s.txs[t])[0] == s'.subs[0];
    assert Committed(s.subs, s.txs[t]) == s'.subs;
  }

  lemma LateLockCommits(approval: Comment, remark: Comment)
    ensures var trace := LateLockTrace(approval, remark);
            Moves(trace[7], Commit(2), trace[8], true) && Moves(trace[11], Commit(1), trace[12], true)
  {
    hide Derive, Applied, Landed, Moves, Committed;
    var none, one := History([], []), History([], [approval]);
    var trace := LateLockTrace(approval, remark);
    assert [] + [approval] == [approval] && [approval] + [remark] == [approval, remark];
    assert trace[7].txs - {2} == trace[8].txs;
    assert trace[11].txs - {1} == map[];
    CommentCommit(trace[7], 2, Sub(none, [Derive(none)], true), approval, Derive(one), trace[8]);
    CommentCommit(trace[11], 1, Sub(one, [Derive(one)], true), remark, Derive(History([], [remark])), trace[12]);
  }

  lemma LateLockFirst(approval: Comment, remark: Comment, i: nat)
    requires i < 7
    ensures var trace := LateLockTrace(approval, remark);
            Moves(trace[i], LateLock(approval, remark)[i], trace[i + 1], true)
  {
    hide Derive, Applied, Landed, Committed;
    var trace, step := LateLockTrace(approval, remark), LateLock(approval, remark)[i];
    OneCommentApplied(History([], []), approval);
    assert [] + [approval] == [approval] && [] + [AddComment(approval)] == [AddComment(approval)] && {} + {0} == {0};
    assert Possible(trace[i], step);
    assert Next(trace[i], step).txs[step.t].work == trace[i + 1].txs[step.t].work;
    assert Next(trace[i], step).txs[step.t] == trace[i + 1].txs[step.t];
    assert Next(trace[i], step).txs == trace[i + 1].txs;
  }

  lemma LateLockSecond(approval: Comment, remark: Comment, i: nat)
    requires 8 <= i < 11
    ensures var trace := LateLockTrace(approval, remark);
            Moves(trace[i], LateLock(approval, remark)[i], trace[i + 1], i != 8)
  {
    hide Derive, Applied, Landed, Committed;
    var trace, step := LateLockTrace(approval, remark), LateLock(approval, remark)[i];
    OneCommentApplied(History([], []), remark);
    assert [] + [remark] == [remark] && [] + [AddComment(remark)] == [AddComment(remark)] && {} + {0} == {0};
    assert Possible(trace[i], step);
    assert Next(trace[i], step).txs[step.t].work == trace[i + 1].txs[step.t].work;
    assert Next(trace[i], step).txs[step.t] == trace[i + 1].txs[step.t];
    assert Next(trace[i], step).txs == trace[i + 1].txs;
  }

  /**
   The one undisciplined step of this run is the lock taken after the first read. The late
   transaction computes its row from a history that is no longer committed: both comments are
   stored, and the row misses the approval.
   */
  lemma LateLockLosesUpdate(approval: Comment, remark: Comment)
    requires approval.live && approval.action == Approve && remark.live && remark.action == Remark
    ensures var trace, steps := LateLockTrace(approval, remark), LateLock(approval, remark);
            && trace[0].txs == map[] && trace[12].txs == map[]
            && (forall i | 0 <= i < 12 :: Moves(trace[i], steps[i], trace[i + 1], i != 8))
            && Coherent(trace[0].subs[0]) && !Coherent(trace[12].subs[0])
            && Approve in LiveActions(trace[12].subs[0].history) && Approve !in trace[12].subs[0].rows[0].actions
  {
    hide Moves, EnabledUsers, BotAction, Latest, NewestFile, OldestFile;
    forall i | 0 <= i < 12
      ensures Moves(LateLockTrace(approval, remark)[i], LateLock(approval, remark)[i],
                    LateLockTrace(approval, remark)[i + 1], i != 8)
    {
      if i < 7 { LateLockFirst(approval, remark, i); }
      if 8 <= i < 11 { LateLockSecond(approval, remark, i); }
      LateLockCommits(approval, remark);
    }
    var h := History([], [approval, remark]);
    assert approval in h.comments && remark in h.comments;
    assert Approve in LiveActions(h) && Reject !in LiveActions(h);
    assert LiveActions(History([], [remark])) == {Remark};
  }
}
