/**
 Disjoint roles in every run whatsoever: which deletions and Force steps, and in which states, end
 them (service/siteservice.go, database/mysqldal.go).
 */
module ReviewApart {
  import opened ReviewHistory
  import opened ReviewRoles
  import opened ReviewMachine
  import opened ReviewRuns
  import opened ReviewLimits

  ghost predicate Apart(s: Submission) {
    Shown(s.row).Disjoint()
  }

  /** The file is deleted, and it is the newest one. */
  ghost predicate DeletesNewest(s: Submission, id: int) {
    && !s.frozen && !s.deleted && LiveFiles(s.history.files) > 1
    && NewestFile(s.history.files).Some? && NewestFile(s.history.files).value.id == id
  }

  /** Told from the submission before the step: afterwards nobody has two roles. */
  ghost predicate KeepsApart(s: Submission, step: Step) {
    var h := s.history;
    match step
    case DeleteComment(id) =>
      forall c | c in h.comments && c.id == id && Deletable(s, c) ::
        StillRejected(h, c) || forall u :: AloneAfter(h, c, u)
    case DeleteFile(id) =>
      DeletesNewest(s, id) && !Has(h, Reject) ==>
        forall g, u | NextNewest(h.files, NewestFile(h.files).value, g) :: AloneOn(h, g, u)
    case ForceApprove(uid, _) => Unforced(s, step) || uid !in OtherRoles(Shown(s.row), step)
    case ForceVerify(uid, _) => Unforced(s, step) || uid !in OtherRoles(Shown(s.row), step)
    case _ => true
  }

  /** The Force step changes no role that is shown. */
  ghost predicate Unforced(s: Submission, step: Step)
    requires step.ForceApprove? || step.ForceVerify?
  {
    s.deleted || Has(s.history, Reject) || step.uid == VALIDATOR || NewestFile(s.history.files).None?
  }

  // ---------------------------------------------------------------- every step keeps the row derived

  lemma {:induction false} NotedKeepsWellFormed(h: History, notes: seq<int>)
    requires WellFormed(h)
    ensures WellFormed(Noted(h, notes))
  {
    hide Said, WellFormed;
    if notes != [] {
      NotedKeepsWellFormed(h, notes[..|notes| - 1]);
      SaidKeepsWellFormed(Noted(h, notes[..|notes| - 1]), SYSTEM, SystemNote, notes[|notes| - 1] + 2);
    }
  }

  lemma PostedKeepsWellFormed(h: History, uid: UserId, action: Action, autofreeze: bool, t1: int, t2: int, t3: int)
    requires WellFormed(h)
    ensures WellFormed(Posted(h, uid, action, autofreeze, t1, t2, t3))
  {
    hide Said, WellFormed;
    SaidKeepsWellFormed(h, uid, action, t1);
    var said := Said(h, uid, action, t1);
    SaidKeepsWellFormed(said, uid, UnassignTesting, t2 + 1);
    SaidKeepsWellFormed(said, uid, UnassignVerification, t2 + 1);
    SaidKeepsWellFormed(Said(said, uid, UnassignVerification, t2 + 1), SYSTEM, SystemNote, t3 + 2);
  }

  lemma VersionedKeepsWellFormed(h: History, uid: UserId, action: Action, tf: int, tc: int, notes: seq<int>, tb: int,
                                 passed: bool)
    requires WellFormed(h)
    ensures WellFormed(Versioned(h, uid, action, tf, tc, notes, tb, passed))
  {
    hide Said, Stored, Noted, WellFormed;
    StoredKeepsWellFormed(h, uid, tf);
    SaidKeepsWellFormed(Stored(h, uid, tf), uid, action, tc);
    var said := Said(Stored(h, uid, tf), uid, action, tc);
    NotedKeepsWellFormed(said, notes);
    SaidKeepsWellFormed(Noted(said, notes), VALIDATOR, if passed then Approve else RequestChanges, tb + 1);
  }

  lemma CarriedOverKeepsWellFormed(h: History, row: Row, approver: UserId, verifier: UserId, ta: int, tv: int)
    requires WellFormed(h)
    ensures WellFormed(CarriedOver(h, row, approver, verifier, ta, tv))
  {
    hide Said, WellFormed;
    SaidKeepsWellFormed(h, approver, Approve, ta + 3);
    SaidKeepsWellFormed(Said(h, approver, Approve, ta + 3), verifier, Verify, tv + 4);
  }

  lemma DeletionsKeepWellFormed(h: History, id: int)
    requires WellFormed(h)
    ensures WellFormed(Buried(h, id)) && WellFormed(Shredded(h, id)) && WellFormed(Erased(h))
  {
  }

  lemma StepKeepsCoherent(s: Submission, step: Step)
    requires Coherent(s)
    ensures Coherent(Next(s, step))
  {
    hide Derive, WellFormed, Posted, Versioned, CarriedOver, Buried, Shredded, Erased, Said, Guard;
    var h := s.history;
    RowIsDerived(s, step);
    match step
    case Post(uid, action, _, _, t1, t2, t3) => PostedKeepsWellFormed(h, uid, action, s.autofreeze, t1, t2, t3);
    case Upload(uid, tf, tc, notes, tb, passed, _) =>
      VersionedKeepsWellFormed(h, uid, UploadFile, tf, tc, notes, tb, passed);
    case MetaEdit(uid, tf, tc, notes, tb, passed, _, approver, verifier, ta, tv) =>
      VersionedKeepsWellFormed(h, uid, EditMeta, tf, tc, notes, tb, passed);
      CarriedOverKeepsWellFormed(Versioned(h, uid, EditMeta, tf, tc, notes, tb, passed), s.row, approver, verifier, ta,
                                 tv);
    case OverrideBot(at) => SaidKeepsWellFormed(h, VALIDATOR, Approve, at);
    case ForceApprove(uid, at) => SaidKeepsWellFormed(h, uid, Approve, at);
    case ForceVerify(uid, at) => SaidKeepsWellFormed(h, uid, Verify, at);
    case DeleteComment(id) => DeletionsKeepWellFormed(h, id);
    case DeleteFile(id) => DeletionsKeepWellFormed(h, id);
    case DeleteSubmission => DeletionsKeepWellFormed(h, 0);
    case SetFrozen(_) =>
  }

  // ---------------------------------------------------------------- step by step

  lemma RegularStepApart(s: Submission, step: Step)
    requires Coherent(s) && Timed(s, step) && Regular(step) && Shown(s.row).Disjoint()
    ensures Shown(Next(s, step).row).Disjoint()
  {
    hide Derive, RolesOf, Has, Next;
    ShownRoles(s.history);
    StepKeepsDisjoint(s, step);
    ShownRoles(Next(s, step).history);
  }

  lemma NothingBuried(h: History, id: int)
    requires forall c | c in h.comments :: c.id != id
    ensures Buried(h, id) == h
  {
    assert forall i | 0 <= i < |h.comments| :: h.comments[i] in h.comments;
  }

  lemma CommentDeletionApart(s: Submission, id: int)
    requires Coherent(s) && Shown(s.row).Disjoint()
    ensures Shown(Next(s, DeleteComment(id)).row).Disjoint() <==> KeepsApart(s, DeleteComment(id))
  {
    hide Derive, Buried, StillRejected, AloneAfter, WellFormed;
    if c :| c in s.history.comments && c.id == id && Deletable(s, c) {
      DeletionKeepsDisjoint(s, c);
      forall d | d in s.history.comments && d.id == id ensures d == c { SameRow(s.history, c, d); }
    } else if forall c | c in s.history.comments :: c.id != id {
      NothingBuried(s.history, id);
    }
  }

  lemma {:induction false} OneLiveFile(files: seq<File>, f: File)
    requires forall i, j | 0 <= i < j < |files| :: files[i].id != files[j].id
    requires forall x | x in files && x.live :: x.id == f.id
    ensures LiveFiles(files) <= 1
    ensures LiveFiles(files) == 1 ==> exists x :: x in files && x.live && x.id == f.id
  {
    if files != [] {
      var rest, last := files[..|files| - 1], files[|files| - 1];
      assert files == rest + [last];
      OneLiveFile(rest, f);
      assert forall i | 0 <= i < |rest| :: rest[i] == files[i] && rest[i].id != last.id;
    }
  }

  /** While another live file is left, there is a next newest. */
  lemma SomeNextNewest(h: History, f: File) returns (g: File)
    requires WellFormed(h) && LiveFiles(h.files) > 1
    ensures NextNewest(h.files, f, g)
  {
    hide LiveFiles;
    if forall x | x in h.files && x.live :: x.id == f.id { OneLiveFile(h.files, f); }
    var x :| x in h.files && x.live && x.id != f.id;
    ShreddedRow(h, f.id, x);
    g := NewestFile(Shredded(h, f.id).files).value;
    ShreddedRow(h, f.id, g);
    forall y | y in h.files && y.live && y.id != f.id ensures !FileBefore(g, y) { ShreddedRow(h, f.id, y); }
  }

  lemma OnlyNextNewest(h: History, f: File, g: File, g': File)
    requires WellFormed(h) && NextNewest(h.files, f, g) && NextNewest(h.files, f, g')
    ensures g == g'
  {
    SameFile(h.files, g, g');
  }

  lemma LiveFileIsNewest(files: seq<File>)
    requires LiveFiles(files) > 0
    ensures NewestFile(files).Some?
  {
    if NewestFile(files).None? { NoLiveFiles(files); }
  }

  lemma {:induction false} NoLiveFiles(files: seq<File>)
    requires forall f | f in files :: !f.live
    ensures LiveFiles(files) == 0
  {
    if files != [] {
      assert files == files[..|files| - 1] + [files[|files| - 1]];
      NoLiveFiles(files[..|files| - 1]);
    }
  }

  lemma FileDeletionApart(s: Submission, id: int)
    requires Coherent(s) && Shown(s.row).Disjoint()
    ensures Shown(Next(s, DeleteFile(id)).row).Disjoint() <==> KeepsApart(s, DeleteFile(id))
  {
    hide Derive, Shredded, LiveFiles, NewestFile, AloneOn, NextNewest, Has, WellFormed;
    var h := s.history;
    if !s.frozen && !s.deleted && LiveFiles(h.files) > 1 {
      LiveFileIsNewest(h.files);
      var f := NewestFile(h.files).value;
      if f.id == id {
        var g := SomeNextNewest(h, f);
        FileDeletionKeepsDisjoint(s, f, g);
        forall g' | NextNewest(h.files, f, g') ensures g' == g { OnlyNextNewest(h, f, g, g'); }
      } else {
        DeletingOlderFile(s, id);
        SameAssignments(s, id);
      }
    }
  }

  lemma SameAssignments(s: Submission, id: int)
    requires Coherent(s)
    ensures var row := Next(s, DeleteFile(id)).row;
            row.testing == s.row.testing && row.verification == s.row.verification
  {
    hide EnabledUsers, LiveFiles, NewestFile, Has;
    SameActions(s.history, Shredded(s.history, id));
  }

  lemma SubmissionDeletionApart(s: Submission)
    requires Coherent(s) && Shown(s.row).Disjoint()
    ensures Shown(Next(s, DeleteSubmission).row).Disjoint()
  {
    hide Derive, Has;
    var h' := Erased(s.history);
    assert forall c | c in h'.comments :: !c.live;
    assert forall u, on: set<Action> :: Ranked(h'.comments, u, on).None?;
    ShownRoles(h');
    assert RolesOf(h') == NOBODY;
  }

  /** One step of any kind keeps disjoint roles disjoint exactly under its condition. */
  lemma StepApart(s: Submission, step: Step)
    requires Coherent(s) && Timed(s, step) && Apart(s)
    ensures Apart(Next(s, step)) <==> KeepsApart(s, step)
  {
    hide Derive, Has, Timed, NewestFile;
    match step
    case DeleteComment(id) => CommentDeletionApart(s, id);
    case DeleteFile(id) => FileDeletionApart(s, id);
    case DeleteSubmission => SubmissionDeletionApart(s);
    case ForceApprove(_, _) => if !s.deleted { ForceKeepsDisjoint(s, step); }
    case ForceVerify(_, _) => if !s.deleted { ForceKeepsDisjoint(s, step); }
    case _ => RegularStepApart(s, step);
  }

  // ---------------------------------------------------------------- over whole runs

  ghost predicate ApartSoFar(trace: seq<Submission>, n: nat)
    requires n < |trace|
  {
    forall i | 0 <= i <= n :: Apart(trace[i])
  }

  ghost predicate KeptSoFar(trace: seq<Submission>, steps: seq<Step>, n: nat)
    requires n < |trace| && n <= |steps|
  {
    forall k | 0 <= k < n :: KeepsApart(trace[k], steps[k])
  }

  lemma {:induction false} RunIsCoherent(trace: seq<Submission>, steps: seq<Step>, i: nat)
    requires Run(trace, steps) && i < |trace|
    ensures Coherent(trace[i])
  {
    hide Coherent, Next, Timed, Init;
    if i > 0 {
      RunIsCoherent(trace, steps, i - 1);
      StepKeepsCoherent(trace[i - 1], steps[i - 1]);
    } else {
      StartsApart(trace[0]);
    }
  }

  lemma StartsApart(s: Submission)
    requires Init(s)
    ensures Coherent(s) && Apart(s)
  {
    hide Derive;
    EmptyHistoryRoles();
    ShownRoles(History([], []));
  }

  /**
   In every run, with any deletions, meta edits and Force steps in it, the four sets of the stored row
   are pairwise disjoint all along if and only if every deletion and every Force step meets its
   condition, each told from the submission as it was before the step.
   */
  lemma {:induction false} RolesDisjointExactly(trace: seq<Submission>, steps: seq<Step>, n: nat)
    requires Run(trace, steps) && n < |trace|
    ensures ApartSoFar(trace, n) <==> KeptSoFar(trace, steps, n)
  {
    hide Coherent, Next, Timed, KeepsApart, Apart, Init;
    if n > 0 {
      RolesDisjointExactly(trace, steps, n - 1);
      RunIsCoherent(trace, steps, n - 1);
      assert Timed(trace[n - 1], steps[n - 1]) && trace[n] == Next(trace[n - 1], steps[n - 1]);
      if ApartSoFar(trace, n - 1) {
        StepApart(trace[n - 1], steps[n - 1]);
        assert Apart(trace[n]) <==> KeepsApart(trace[n - 1], steps[n - 1]);
      }
    } else {
      StartsApart(trace[0]);
    }
  }
}
