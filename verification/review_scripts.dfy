/**
 The writers of review history statement by statement (service/siteservice_comments.go,
 service/siteservice_submissionreceiver.go, service/siteservice.go, database/mysqldal.go): what
 each stores and when it recomputes the cache row. From this it is proved that they keep the
 discipline of ReviewTransactions and that they do what ReviewMachine says.
 */
module ReviewScripts {
  import opened ReviewHistory
  import opened ReviewRoles
  import M = ReviewMachine
  import T = ReviewTransactions

  datatype Op = Store(edit: T.Edit) | Recompute

  // ---------------------------------------------------------------- the statements of each writer

  function Say(h: History, author: UserId, action: Action, at: int): seq<Op> {
    [Store(T.AddComment(Comment(FreshCommentId(h.comments), author, action, at, true)))]
  }

  /** ReceiveComments for one submission it accepts. */
  function PostOps(h: History, uid: UserId, action: Action, autofreeze: bool, t1: int, t2: int, t3: int): seq<Op> {
    var said := Said(h, uid, action, t1);
    Say(h, uid, action, t1)
    + (if action == Approve then Say(said, uid, UnassignTesting, t2 + 1)
       else if action == Verify then
         var unassigned := Said(said, uid, UnassignVerification, t2 + 1);
         Say(said, uid, UnassignVerification, t2 + 1)
         + (if autofreeze then Say(unassigned, SYSTEM, SystemNote, t3 + 2) else [])
       else [])
    + [Recompute]
  }

  function NoteOps(h: History, notes: seq<int>): seq<Op> {
    if notes == [] then []
    else
      var rest := notes[..|notes| - 1];
      NoteOps(h, rest) + Say(M.Noted(h, rest), SYSTEM, SystemNote, notes[|notes| - 1] + 2)
  }

  /** The receivers of a new version, up to their recompute. */
  function VersionOps(h: History, uid: UserId, action: Action, tf: int, tc: int, notes: seq<int>, tb: int,
                      passed: bool): seq<Op> {
    var stored := Stored(h, uid, tf);
    var said := Said(stored, uid, action, tc);
    [Store(T.AddFile(File(FreshFileId(h.files), uid, tf, true)))]
    + Say(stored, uid, action, tc)
    + NoteOps(said, notes)
    + Say(M.Noted(said, notes), VALIDATOR, if passed then Approve else RequestChanges, tb + 1)
    + [Recompute]
  }

  function CarryOps(h: History, row: Row, approver: UserId, verifier: UserId, ta: int, tv: int): seq<Op> {
    if row.approved == {} then []
    else
      Say(h, approver, Approve, ta + 3)
      + if row.verified == {} then [] else Say(Said(h, approver, Approve, ta + 3), verifier, Verify, tv + 4)
  }

  /** What the writer of this step does to the history and the cache row; nothing if it refuses. */
  function OpsOf(s: M.Submission, step: M.Step): seq<Op> {
    if s.deleted then []
    else
      match step
      case Post(uid, action, message, freezer, t1, t2, t3) =>
        if !M.Accepts(s, uid, action, message, freezer) then []
        else PostOps(s.history, uid, action, s.autofreeze, t1, t2, t3)
      case Upload(uid, tf, tc, notes, tb, passed, _) =>
        if s.frozen then [] else VersionOps(s.history, uid, UploadFile, tf, tc, notes, tb, passed)
      case MetaEdit(uid, tf, tc, notes, tb, passed, _, approver, verifier, ta, tv) =>
        if s.frozen || MarkAdded in s.row.actions then []
        else
          VersionOps(s.history, uid, EditMeta, tf, tc, notes, tb, passed)
          + CarryOps(M.Versioned(s.history, uid, EditMeta, tf, tc, notes, tb, passed), s.row, approver, verifier, ta,
                     tv)
          + [Recompute]
      case OverrideBot(at) => if s.frozen then [] else Say(s.history, VALIDATOR, Approve, at) + [Recompute]
      case ForceApprove(uid, at) => Say(s.history, uid, Approve, at) + [Recompute]
      case ForceVerify(uid, at) => Say(s.history, uid, Verify, at) + [Recompute]
      case DeleteComment(id) =>
        if s.frozen || (exists c | c in s.history.comments :: c.id == id && (!c.live || c.author == VALIDATOR)) then []
        else [Store(T.Bury(id)), Recompute]
      case DeleteFile(id) =>
        if s.frozen || M.LiveFiles(s.history.files) <= 1 then [] else [Store(T.Shred(id)), Recompute]
      case DeleteSubmission => if s.frozen then [] else [Store(T.EraseAll), Recompute]
      case SetFrozen(_) => []
  }

  // ---------------------------------------------------------------- what the statements do

  /** The uncommitted work of a transaction that sees the submission's history as `h`. */
  function Worked(h: History, w: T.Work, op: Op): T.Work {
    match op
    case Store(e) => w.(edits := w.edits + [e], stale := true)
    case Recompute => w.(row := Some(Derive(T.Applied(h, w.edits))), stale := false)
  }

  function WorkAfter(h: History, w: T.Work, ops: seq<Op>): T.Work {
    if ops == [] then w else Worked(h, WorkAfter(h, w, ops[..|ops| - 1]), ops[|ops| - 1])
  }

  lemma {:induction false} WorkOfSum(h: History, w: T.Work, a: seq<Op>, b: seq<Op>)
    ensures WorkAfter(h, w, a + b) == WorkAfter(h, WorkAfter(h, w, a), b)
  {
    if b == [] {
      assert a + b == a;
    } else {
      assert (a + b)[..|a + b| - 1] == a + b[..|b| - 1];
      WorkOfSum(h, w, a, b[..|b| - 1]);
    }
  }

  const FRESH: T.Work := T.Work([], false, None, false)

  /** These statements turn the history `h` into `h'`, and delete no submission. */
  ghost predicate Reaches(h: History, ops: seq<Op>, h': History) {
    var w := WorkAfter(h, FRESH, ops);
    T.Applied(h, w.edits) == h' && !w.inserted && T.EraseAll !in w.edits
  }

  /** And leave the row of `h'` to be stored. */
  ghost predicate Completes(h: History, ops: seq<Op>, h': History) {
    var w := WorkAfter(h, FRESH, ops);
    T.Applied(h, w.edits) == h' && !w.inserted && w.row == Some(Derive(h')) && !w.stale
  }

  lemma ReachesNothing(h: History)
    ensures Reaches(h, [], h)
  {
  }

  lemma OneOp(h: History, w: T.Work, op: Op)
    ensures WorkAfter(h, w, [op]) == Worked(h, w, op)
  {
    assert [op][..0] == [];
  }

  lemma StoreReaches(h: History, ops: seq<Op>, h': History, e: T.Edit)
    requires Reaches(h, ops, h') && e != T.EraseAll
    ensures Reaches(h, ops + [Store(e)], T.Applied(h', [e]))
  {
    hide Derive;
    var w := WorkAfter(h, FRESH, ops);
    WorkOfSum(h, FRESH, ops, [Store(e)]);
    OneOp(h, w, Store(e));
    assert (w.edits + [e])[..|w.edits|] == w.edits && [e][..0] == [];
  }

  lemma SayReaches(h: History, ops: seq<Op>, h': History, author: UserId, action: Action, at: int)
    requires Reaches(h, ops, h')
    ensures Reaches(h, ops + Say(h', author, action, at), Said(h', author, action, at))
  {
    hide FreshCommentId, Reaches;
    var c := Comment(FreshCommentId(h'.comments), author, action, at, true);
    StoreReaches(h, ops, h', T.AddComment(c));
    assert [T.AddComment(c)][..0] == [];
  }

  lemma RecomputeCompletes(h: History, ops: seq<Op>, h': History)
    requires Reaches(h, ops, h')
    ensures Completes(h, ops + [Recompute], h') && Reaches(h, ops + [Recompute], h')
  {
    hide Derive, T.Applied;
    WorkOfSum(h, FRESH, ops, [Recompute]);
    OneOp(h, WorkAfter(h, FRESH, ops), Recompute);
  }

  lemma PostCompletes(h: History, uid: UserId, action: Action, autofreeze: bool, t1: int, t2: int, t3: int)
    ensures var ops, h' := PostOps(h, uid, action, autofreeze, t1, t2, t3),
                           M.Posted(h, uid, action, autofreeze, t1, t2, t3);
            Completes(h, ops, h') && Reaches(h, ops, h') && ops != []
  {
    hide Reaches, Completes, Say, Said;
    var said, ops := Said(h, uid, action, t1), Say(h, uid, action, t1);
    ReachesNothing(h);
    SayReaches(h, [], h, uid, action, t1);
    assert [] + ops == ops;
    if action == Approve {
      SayReaches(h, ops, said, uid, UnassignTesting, t2 + 1);
      RecomputeCompletes(h, ops + Say(said, uid, UnassignTesting, t2 + 1), Said(said, uid, UnassignTesting, t2 + 1));
    } else if action == Verify {
      var unassigned := Said(said, uid, UnassignVerification, t2 + 1);
      var more := Say(said, uid, UnassignVerification, t2 + 1);
      SayReaches(h, ops, said, uid, UnassignVerification, t2 + 1);
      if autofreeze {
        var note := Say(unassigned, SYSTEM, SystemNote, t3 + 2);
        SayReaches(h, ops + more, unassigned, SYSTEM, SystemNote, t3 + 2);
        RecomputeCompletes(h, ops + more + note, Said(unassigned, SYSTEM, SystemNote, t3 + 2));
        assert ops + (more + note) == ops + more + note;
      } else {
        RecomputeCompletes(h, ops + more, unassigned);
        assert more + [] == more;
      }
    } else {
      RecomputeCompletes(h, ops, said);
      assert ops + [] == ops;
    }
  }

  lemma {:induction false} NotesReach(h: History, ops: seq<Op>, h': History, notes: seq<int>)
    requires Reaches(h, ops, h')
    ensures Reaches(h, ops + NoteOps(h', notes), M.Noted(h', notes))
  {
    hide Reaches, Say, Said;
    if notes == [] {
      assert ops + [] == ops;
    } else {
      var rest, last := notes[..|notes| - 1], notes[|notes| - 1];
      NotesReach(h, ops, h', rest);
      SayReaches(h, ops + NoteOps(h', rest), M.Noted(h', rest), SYSTEM, SystemNote, last + 2);
      assert ops + NoteOps(h', notes) == ops + NoteOps(h', rest) + Say(M.Noted(h', rest), SYSTEM, SystemNote, last + 2);
    }
  }

  lemma VersionCompletes(h: History, uid: UserId, action: Action, tf: int, tc: int, notes: seq<int>, tb: int,
                         passed: bool)
    ensures var ops, h' := VersionOps(h, uid, action, tf, tc, notes, tb, passed),
                           M.Versioned(h, uid, action, tf, tc, notes, tb, passed);
            Completes(h, ops, h') && Reaches(h, ops, h') && ops != []
  {
    hide Reaches, Completes, Say, Said, NoteOps, M.Noted, FreshFileId;
    var stored, e := Stored(h, uid, tf), T.AddFile(File(FreshFileId(h.files), uid, tf, true));
    var said := Said(stored, uid, action, tc);
    var verdict := if passed then Approve else RequestChanges;
    ReachesNothing(h);
    StoreReaches(h, [], h, e);
    assert [e][..0] == [] && [] + [Store(e)] == [Store(e)];
    SayReaches(h, [Store(e)], stored, uid, action, tc);
    NotesReach(h, [Store(e)] + Say(stored, uid, action, tc), said, notes);
    SayReaches(h, [Store(e)] + Say(stored, uid, action, tc) + NoteOps(said, notes), M.Noted(said, notes), VALIDATOR,
               verdict, tb + 1);
    RecomputeCompletes(h, [Store(e)] + Say(stored, uid, action, tc) + NoteOps(said, notes)
                          + Say(M.Noted(said, notes), VALIDATOR, verdict, tb + 1),
                       Said(M.Noted(said, notes), VALIDATOR, verdict, tb + 1));
  }

  lemma CarryReaches(h: History, ops: seq<Op>, h': History, row: Row, approver: UserId, verifier: UserId, ta: int,
                     tv: int)
    requires Reaches(h, ops, h')
    ensures Reaches(h, ops + CarryOps(h', row, approver, verifier, ta, tv),
                    M.CarriedOver(h', row, approver, verifier, ta, tv))
  {
    hide Reaches, Say, Said;
    if row.approved == {} {
      assert ops + [] == ops;
    } else {
      var first, approved := Say(h', approver, Approve, ta + 3), Said(h', approver, Approve, ta + 3);
      SayReaches(h, ops, h', approver, Approve, ta + 3);
      if row.verified == {} {
        assert first + [] == first;
      } else {
        var second := Say(approved, verifier, Verify, tv + 4);
        SayReaches(h, ops + first, approved, verifier, Verify, tv + 4);
        assert ops + (first + second) == ops + first + second;
      }
    }
  }

  lemma MetaEditCompletes(s: M.Submission, step: M.Step)
    requires step.MetaEdit? && !s.deleted && !s.frozen && MarkAdded !in s.row.actions
    ensures Completes(s.history, OpsOf(s, step), M.Next(s, step).history) &&
              Reaches(s.history, OpsOf(s, step), M.Next(s, step).history)
  {
    hide Reaches, Completes, VersionOps, CarryOps, M.Versioned, M.CarriedOver, Derive;
    var h := s.history;
    var ops := VersionOps(h, step.uid, EditMeta, step.tf, step.tc, step.notes, step.tb, step.passed);
    var h' := M.Versioned(h, step.uid, EditMeta, step.tf, step.tc, step.notes, step.tb, step.passed);
    VersionCompletes(h, step.uid, EditMeta, step.tf, step.tc, step.notes, step.tb, step.passed);
    CarryReaches(h, ops, h', s.row, step.approver, step.verifier, step.ta, step.tv);
    RecomputeCompletes(h, ops + CarryOps(h', s.row, step.approver, step.verifier, step.ta, step.tv),
                       M.CarriedOver(h', s.row, step.approver, step.verifier, step.ta, step.tv));
  }

  lemma SaidOnceCompletes(h: History, author: UserId, action: Action, at: int)
    ensures var ops := Say(h, author, action, at) + [Recompute];
            Completes(h, ops, Said(h, author, action, at)) && Reaches(h, ops, Said(h, author, action, at))
  {
    hide Reaches, Completes, Said;
    ReachesNothing(h);
    SayReaches(h, [], h, author, action, at);
    assert [] + Say(h, author, action, at) == Say(h, author, action, at);
    RecomputeCompletes(h, Say(h, author, action, at), Said(h, author, action, at));
  }

  lemma EditCompletes(h: History, e: T.Edit)
    ensures Completes(h, [Store(e), Recompute], T.Applied(h, [e]))
    ensures e != T.EraseAll ==> Reaches(h, [Store(e), Recompute], T.Applied(h, [e]))
    ensures WorkAfter(h, FRESH, [Store(e), Recompute]).edits == [e]
  {
    hide Derive, T.Applied;
    OneOp(h, FRESH, Store(e));
    assert [Store(e), Recompute][..1] == [Store(e)] && [] + [e] == [e];
  }

  /** The statements make the step of the review machine, and the row left to store is the derivation. */
  lemma StatementsMakeTheStep(s: M.Submission, step: M.Step)
    requires !s.deleted
    ensures var s', ops := M.Next(s, step), OpsOf(s, step);
            if ops == [] then s'.history == s.history && s'.row == s.row && !s'.deleted
            else
              && Completes(s.history, ops, s'.history) && s'.row == Derive(s'.history)
              && (s'.deleted <==> T.EraseAll in WorkAfter(s.history, FRESH, ops).edits)
  {
    hide Completes, PostOps, VersionOps, CarryOps, M.Posted, M.Versioned, M.CarriedOver, Derive, M.Accepts, WorkAfter,
         Say, Said;
    var h := s.history;
    match step
    case Post(uid, action, message, freezer, t1, t2, t3) =>
      PostCompletes(h, uid, action, s.autofreeze, t1, t2, t3);
    case Upload(uid, tf, tc, notes, tb, passed, _) =>
      VersionCompletes(h, uid, UploadFile, tf, tc, notes, tb, passed);
    case MetaEdit(_, _, _, _, _, _, _, _, _, _, _) =>
      if OpsOf(s, step) != [] { MetaEditCompletes(s, step); }
    case OverrideBot(at) => SaidOnceCompletes(h, VALIDATOR, Approve, at);
    case ForceApprove(uid, at) => SaidOnceCompletes(h, uid, Approve, at);
    case ForceVerify(uid, at) => SaidOnceCompletes(h, uid, Verify, at);
    case DeleteComment(id) => EditCompletes(h, T.Bury(id)); assert [T.Bury(id)][..0] == [];
    case DeleteFile(id) => EditCompletes(h, T.Shred(id)); assert [T.Shred(id)][..0] == [];
    case DeleteSubmission => EditCompletes(h, T.EraseAll); assert [T.EraseAll][..0] == [];
    case SetFrozen(_) =>
  }

  /**
   What a committed writer leaves in the database is the machine's next state: the same history,
   its one cache row recomputed, and the submission gone exactly if it was deleted.
   */
  lemma CommitIsMachineStep(s: M.Submission, step: M.Step)
    requires !s.deleted && OpsOf(s, step) != []
    ensures var s' := M.Next(s, step);
            T.Landed(T.Sub(s.history, [s.row], true), WorkAfter(s.history, FRESH, OpsOf(s, step)))
              == T.Sub(s'.history, [s'.row], !s'.deleted)
  {
    hide OpsOf, M.Next, WorkAfter, T.Applied, Derive;
    StatementsMakeTheStep(s, step);
  }

  // ---------------------------------------------------------------- whole transactions

  /** The submissions locked first, or one created; then the statements for each in turn. */
  datatype Script = Script(sids: seq<int>, created: Option<int>, work: seq<(int, seq<Op>)>)

  /** As OpsOf gives them: nothing, or something that ends in a recompute. */
  predicate Rounded(ops: seq<Op>) {
    ops == [] || ops[|ops| - 1] == Recompute
  }

  predicate Fits(script: Script) {
    && (forall i | 0 <= i < |script.work| :: Rounded(script.work[i].1))
    && match script.created
       case None => forall i | 0 <= i < |script.work| :: script.work[i].0 in script.sids
       case Some(sid) => script.sids == [] && |script.work| == 1 && script.work[0].0 == sid && script.work[0].1 != []
  }

  lemma WritersAreRounded(s: M.Submission, step: M.Step)
    ensures Rounded(OpsOf(s, step))
  {
    hide M.Accepts, M.LiveFiles, NoteOps, CarryOps, Say;
  }

  function StepOf(t: int, sid: int, op: Op): T.Step {
    match op
    case Store(e) => T.Write(t, sid, e)
    case Recompute => T.Recompute(t, sid)
  }

  function StepsOf(t: int, sid: int, ops: seq<Op>): seq<T.Step> {
    if ops == [] then [] else StepsOf(t, sid, ops[..|ops| - 1]) + [StepOf(t, sid, ops[|ops| - 1])]
  }

  function WorkSteps(t: int, work: seq<(int, seq<Op>)>): seq<T.Step> {
    if work == [] then []
    else WorkSteps(t, work[..|work| - 1]) + StepsOf(t, work[|work| - 1].0, work[|work| - 1].1)
  }

  function LockSteps(t: int, sids: seq<int>): seq<T.Step> {
    if sids == [] then [] else LockSteps(t, sids[..|sids| - 1]) + [T.Lock(t, sids[|sids| - 1])]
  }

  function ScriptSteps(t: int, script: Script): seq<T.Step> {
    [T.Begin(t)] + LockSteps(t, script.sids) + [T.Snapshot(t)]
    + (if script.created.Some? then [T.Create(t, script.created.value)] else [])
    + WorkSteps(t, script.work) + [T.Commit(t)]
  }

  // ---------------------------------------------------------------- the discipline, checked from the text alone

  /** What can be told from a transaction's own steps: its locks, whether it has read, what it must recompute. */
  datatype Status = Status(locks: set<int>, snapped: bool, stale: set<int>)

  const IDLE: Status := Status({}, false, {})

  predicate Allowed(st: Status, step: T.Step) {
    match step
    case Lock(_, _) => !st.snapped
    case Write(_, sid, _) => sid in st.locks
    case InsertRow(_, _) => false
    case Recompute(_, sid) => sid in st.locks
    case Commit(_) => st.stale == {}
    case _ => true
  }

  function StatusAfter(st: Status, step: T.Step): Status {
    match step
    case Lock(_, sid) => st.(locks := st.locks + {sid})
    case Create(_, sid) => st.(locks := st.locks + {sid}, stale := st.stale + {sid})
    case Snapshot(_) => st.(snapped := true)
    case Write(_, sid, _) => st.(stale := st.stale + {sid})
    case InsertRow(_, sid) => st.(stale := st.stale + {sid})
    case Recompute(_, sid) => st.(stale := st.stale - {sid})
    case _ => IDLE
  }

  /** None once a step was not allowed. */
  function Check(st: Status, steps: seq<T.Step>): Option<Status> {
    if steps == [] then Some(st)
    else
      var before := Check(st, steps[..|steps| - 1]);
      if before.Some? && Allowed(before.value, steps[|steps| - 1])
      then Some(StatusAfter(before.value, steps[|steps| - 1])) else None
  }

  lemma {:induction false} CheckOfSum(st: Status, a: seq<T.Step>, b: seq<T.Step>)
    requires Check(st, a).Some?
    ensures Check(st, a + b) == Check(Check(st, a).value, b)
  {
    if b == [] {
      assert a + b == a;
    } else {
      assert (a + b)[..|a + b| - 1] == a + b[..|b| - 1];
      CheckOfSum(st, a, b[..|b| - 1]);
    }
  }

  lemma OneStepChecked(st: Status, step: T.Step)
    ensures Check(st, [step]) == if Allowed(st, step) then Some(StatusAfter(st, step)) else None
  {
    assert [step][..0] == [];
  }

  lemma {:induction false} PrefixChecked(st: Status, a: seq<T.Step>, b: seq<T.Step>)
    requires a <= b && Check(st, b).Some?
    ensures Check(st, a).Some?
    decreases |b|
  {
    if a != b {
      assert a <= b[..|b| - 1];
      PrefixChecked(st, a, b[..|b| - 1]);
    }
  }

  lemma {:induction false} LocksChecked(st: Status, t: int, sids: seq<int>)
    requires !st.snapped
    ensures Check(st, LockSteps(t, sids)) == Some(st.(locks := st.locks + set sid | sid in sids))
  {
    if sids == [] {
      assert st.locks + (set sid | sid in sids) == st.locks;
    } else {
      var rest, last := sids[..|sids| - 1], sids[|sids| - 1];
      LocksChecked(st, t, rest);
      assert sids == rest + [last];
      assert LockSteps(t, sids)[..|LockSteps(t, sids)| - 1] == LockSteps(t, rest);
      assert (st.locks + set sid | sid in rest) + {last} == st.locks + set sid | sid in sids;
    }
  }

  lemma {:induction false} OpsChecked(st: Status, t: int, sid: int, ops: seq<Op>)
    requires sid in st.locks
    ensures Check(st, StepsOf(t, sid, ops)) ==
              Some(st.(stale := if ops == [] then st.stale
                                else if ops[|ops| - 1] == Recompute then st.stale - {sid} else st.stale + {sid}))
  {
    if ops != [] {
      var rest := ops[..|ops| - 1];
      OpsChecked(st, t, sid, rest);
      assert StepsOf(t, sid, ops)[..|StepsOf(t, sid, ops)| - 1] == StepsOf(t, sid, rest);
      assert (st.stale + {sid}) - {sid} == st.stale - {sid} && (st.stale - {sid}) + {sid} == st.stale + {sid};
      assert (st.stale + {sid}) + {sid} == st.stale + {sid} && (st.stale - {sid}) - {sid} == st.stale - {sid};
    }
  }

  lemma {:induction false} WorkChecked(st: Status, t: int, work: seq<(int, seq<Op>)>)
    requires st.stale == {} && forall i | 0 <= i < |work| :: Rounded(work[i].1) && work[i].0 in st.locks
    ensures Check(st, WorkSteps(t, work)) == Some(st)
  {
    if work != [] {
      var rest, last := work[..|work| - 1], work[|work| - 1];
      WorkChecked(st, t, rest);
      CheckOfSum(st, WorkSteps(t, rest), StepsOf(t, last.0, last.1));
      OpsChecked(st, t, last.0, last.1);
      assert {} - {last.0} == {};
    }
  }

  /**
   Every writer's script passes the check: it locks before it reads, writes what it has locked, and
   recomputes last.
   */
  lemma ScriptsPass(t: int, script: Script)
    requires Fits(script)
    ensures Check(IDLE, ScriptSteps(t, script)).Some?
  {
    hide Check, Allowed, StatusAfter, LockSteps, WorkSteps;
    var begin, locks, snap := [T.Begin(t)], LockSteps(t, script.sids), [T.Snapshot(t)];
    var create := if script.created.Some? then [T.Create(t, script.created.value)] else [];
    var work := WorkSteps(t, script.work);
    var held := Status(set sid | sid in script.sids, true, {});
    HeadPasses(t, script.sids);
    if script.created.None? {
      WorkChecked(held, t, script.work);
      CheckOfSum(IDLE, begin + locks + snap, work);
      assert begin + locks + snap + create == begin + locks + snap;
      TailPasses(begin + locks + snap + work, t, held);
    } else {
      var sid := script.created.value;
      CreatedPasses(held, t, sid, script.work[0].1);
      CheckOfSum(IDLE, begin + locks + snap, create + work);
      assert WorkSteps(t, script.work) == StepsOf(t, sid, script.work[0].1) by { OneWork(t, script.work); }
      assert begin + locks + snap + (create + work) == begin + locks + snap + create + work;
      TailPasses(begin + locks + snap + create + work, t, held.(locks := held.locks + {sid}));
    }
  }

  lemma OneWork(t: int, work: seq<(int, seq<Op>)>)
    requires |work| == 1
    ensures WorkSteps(t, work) == StepsOf(t, work[0].0, work[0].1)
  {
    assert work[..0] == [];
    assert [] + StepsOf(t, work[0].0, work[0].1) == StepsOf(t, work[0].0, work[0].1);
  }

  lemma HeadPasses(t: int, sids: seq<int>)
    ensures Check(IDLE, [T.Begin(t)] + LockSteps(t, sids) + [T.Snapshot(t)])
         == Some(Status(set sid | sid in sids, true, {}))
  {
    hide Check, LockSteps;
    OneStepChecked(IDLE, T.Begin(t));
    LocksChecked(IDLE, t, sids);
    CheckOfSum(IDLE, [T.Begin(t)], LockSteps(t, sids));
    var st := IDLE.(locks := {} + set sid | sid in sids);
    assert st.locks == set sid | sid in sids;
    OneStepChecked(st, T.Snapshot(t));
    CheckOfSum(IDLE, [T.Begin(t)] + LockSteps(t, sids), [T.Snapshot(t)]);
  }

  lemma TailPasses(steps: seq<T.Step>, t: int, st: Status)
    requires Check(IDLE, steps) == Some(st) && st.stale == {}
    ensures Check(IDLE, steps + [T.Commit(t)]).Some?
  {
    hide Check;
    OneStepChecked(st, T.Commit(t));
    CheckOfSum(IDLE, steps, [T.Commit(t)]);
  }

  lemma CreatedPasses(st: Status, t: int, sid: int, ops: seq<Op>)
    requires st.stale == {} && ops != [] && Rounded(ops)
    ensures Check(st, [T.Create(t, sid)] + StepsOf(t, sid, ops)) == Some(st.(locks := st.locks + {sid}))
  {
    hide Check, StepsOf;
    var created := StatusAfter(st, T.Create(t, sid));
    OneStepChecked(st, T.Create(t, sid));
    OpsChecked(created, t, sid, ops);
    CheckOfSum(st, [T.Create(t, sid)], StepsOf(t, sid, ops));
    assert ({} + {sid}) - {sid} == {};
  }

  // ---------------------------------------------------------------- any interleaving of scripts

  function Own(steps: seq<T.Step>, t: int): seq<T.Step> {
    if steps == [] then []
    else Own(steps[..|steps| - 1], t) + if steps[|steps| - 1].t == t then [steps[|steps| - 1]] else []
  }

  /** The transaction has done its script up to some point, and perhaps given up there. */
  ghost predicate Follows(own: seq<T.Step>, t: int) {
    exists script :: Fits(script) && (own <= ScriptSteps(t, script) || GaveUp(own, t, ScriptSteps(t, script)))
  }

  predicate GaveUp(own: seq<T.Step>, t: int, script: seq<T.Step>) {
    own != [] && own[|own| - 1] == T.Rollback(t) && own[..|own| - 1] <= script
  }

  lemma FollowersPass(own: seq<T.Step>, t: int)
    requires Follows(own, t)
    ensures Check(IDLE, own).Some?
  {
    var script :| Fits(script) && (own <= ScriptSteps(t, script) || GaveUp(own, t, ScriptSteps(t, script)));
    hide ScriptSteps, Fits;
    ScriptsPass(t, script);
    var part := if own <= ScriptSteps(t, script) then own else own[..|own| - 1];
    PrefixChecked(IDLE, part, ScriptSteps(t, script));
  }

  /** What the check has worked out is what the transaction is like. */
  ghost predicate Describes(s: T.State, t: int, st: Status) {
    t in s.txs ==>
      && st.locks == s.txs[t].locks && st.snapped == s.txs[t].snapshot.Some?
      && forall sid | sid in s.txs[t].work && s.txs[t].work[sid].stale :: sid in st.stale
  }

  lemma AllowedIsDisciplined(s: T.State, step: T.Step, st: Status)
    requires T.Possible(s, step) && Describes(s, step.t, st) && Allowed(st, step)
    ensures T.Disciplined(s, step) && Describes(T.Next(s, step), step.t, StatusAfter(st, step))
  {
    hide T.Committed, T.Applied, Derive;
  }

  lemma OthersStay(s: T.State, step: T.Step, u: int, st: Status)
    requires T.Possible(s, step) && u != step.t && Describes(s, u, st)
    ensures Describes(T.Next(s, step), u, st)
  {
    hide T.Committed, T.Applied, Derive;
  }

  /** What the database does; nothing is assumed of the transactions. */
  ghost predicate Happens(trace: seq<T.State>, steps: seq<T.Step>) {
    && |trace| == |steps| + 1 && trace[0].txs == map[]
    && forall i | 0 <= i < |steps| :: T.Possible(trace[i], steps[i]) && trace[i + 1] == T.Next(trace[i], steps[i])
  }

  lemma {:induction false} StatusDescribes(trace: seq<T.State>, steps: seq<T.Step>, t: int, i: nat)
    requires Happens(trace, steps) && i <= |steps| && Check(IDLE, Own(steps[..i], t)).Some?
    ensures Describes(trace[i], t, Check(IDLE, Own(steps[..i], t)).value)
    ensures i > 0 && steps[i - 1].t == t ==> T.Disciplined(trace[i - 1], steps[i - 1])
  {
    if i > 0 {
      hide T.Possible, T.Disciplined, T.Next, Describes, Allowed, StatusAfter;
      var before, own, step := trace[i - 1], Own(steps[..i - 1], t), steps[i - 1];
      assert steps[..i][..i - 1] == steps[..i - 1];
      if step.t == t {
        assert (own + [step])[..|own|] == own;
        StatusDescribes(trace, steps, t, i - 1);
        AllowedIsDisciplined(before, step, Check(IDLE, own).value);
      } else {
        assert own + [] == own;
        StatusDescribes(trace, steps, t, i - 1);
        OthersStay(before, step, t, Check(IDLE, own).value);
      }
    }
  }

  lemma {:induction false} OwnGrows(steps: seq<T.Step>, t: int, i: nat)
    requires i <= |steps|
    ensures Own(steps[..i], t) <= Own(steps, t)
    decreases |steps|
  {
    if i == |steps| {
      assert steps[..i] == steps;
    } else {
      assert steps[..|steps| - 1][..i] == steps[..i];
      OwnGrows(steps[..|steps| - 1], t, i);
    }
  }

  /**
   However the database interleaves them, transactions that follow the writers' scripts, giving up
   wherever they like, are disciplined; repairs may run beside them.
   */
  lemma ScriptsAreDisciplined(trace: seq<T.State>, steps: seq<T.Step>, repairs: set<int>)
    requires Happens(trace, steps) && forall t :: t in repairs || Follows(Own(steps, t), t)
    requires forall i | 0 <= i < |steps| && steps[i].t in repairs :: T.Disciplined(trace[i], steps[i])
    ensures T.Run(trace, steps)
  {
    hide T.Possible, T.Disciplined, T.Next, Follows, Own;
    forall i | 0 <= i < |steps| ensures T.Disciplined(trace[i], steps[i]) {
      var t := steps[i].t;
      if t !in repairs {
        FollowersPass(Own(steps, t), t);
        OwnGrows(steps, t, i + 1);
        PrefixChecked(IDLE, Own(steps[..i + 1], t), Own(steps, t));
        StatusDescribes(trace, steps, t, i + 1);
      }
    }
  }

  /** So the writers as they are keep every committed cache row right, in every interleaving. */
  lemma WritersKeepRowsDerived(trace: seq<T.State>, steps: seq<T.Step>, repairs: set<int>, i: nat)
    requires Happens(trace, steps) && forall t :: t in repairs || Follows(Own(steps, t), t)
    requires forall k | 0 <= k < |steps| && steps[k].t in repairs :: T.Disciplined(trace[k], steps[k])
    requires i < |trace| && forall sid | sid in trace[0].subs :: T.Coherent(trace[0].subs[sid])
    ensures forall sid | sid in trace[i].subs :: T.Coherent(trace[i].subs[sid])
  {
    hide T.Possible, T.Disciplined, T.Next, Follows, Own, T.Coherent;
    ScriptsAreDisciplined(trace, steps, repairs);
    T.EveryCommittedRowIsDerived(trace, steps, i);
  }
}
