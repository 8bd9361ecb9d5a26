/** Properties of every run of the review state machine. ReviewLimits and ReviewApart say where they end. */
module ReviewRuns {
  import opened ReviewHistory
  import opened ReviewRoles
  import opened ReviewMachine

  // ---------------------------------------------------------------- which actions a step can add

  ghost predicate OnlyAdds(h: History, h': History, actions: set<Action>) {
    && (forall a :: Has(h, a) ==> Has(h', a))
    && (forall a :: Has(h', a) ==> Has(h, a) || a in actions)
  }

  lemma SaidOnlyAdds(h0: History, h: History, author: UserId, action: Action, at: int, actions: set<Action>)
    requires OnlyAdds(h0, h, actions) && action in actions
    ensures OnlyAdds(h0, Said(h, author, action, at), actions)
  {
    hide Said, Has;
    SaidAddsAction(h, author, action, at);
  }

  lemma PostedAdds(h: History, uid: UserId, action: Action, autofreeze: bool, t1: int, t2: int, t3: int)
    ensures OnlyAdds(h, Posted(h, uid, action, autofreeze, t1, t2, t3),
                     {action, UnassignTesting, UnassignVerification, SystemNote})
    ensures Has(Posted(h, uid, action, autofreeze, t1, t2, t3), action)
  {
    hide Said, Has;
    var actions := {action, UnassignTesting, UnassignVerification, SystemNote};
    var said := Said(h, uid, action, t1);
    SaidAddsAction(h, uid, action, t1);
    SaidOnlyAdds(h, h, uid, action, t1, actions);
    if action == Approve {
      SaidOnlyAdds(h, said, uid, UnassignTesting, t2 + 1, actions);
      SaidAddsAction(said, uid, UnassignTesting, t2 + 1);
    } else if action == Verify {
      var unassigned := Said(said, uid, UnassignVerification, t2 + 1);
      SaidOnlyAdds(h, said, uid, UnassignVerification, t2 + 1, actions);
      SaidAddsAction(said, uid, UnassignVerification, t2 + 1);
      SaidOnlyAdds(h, unassigned, SYSTEM, SystemNote, t3 + 2, actions);
      SaidAddsAction(unassigned, SYSTEM, SystemNote, t3 + 2);
    }
  }

  lemma {:induction false} NotedAdds(h0: History, h: History, notes: seq<int>, actions: set<Action>)
    requires OnlyAdds(h0, h, actions) && SystemNote in actions
    ensures OnlyAdds(h0, Noted(h, notes), actions)
  {
    hide Said, Has;
    if notes != [] {
      NotedAdds(h0, h, notes[..|notes| - 1], actions);
      SaidOnlyAdds(h0, Noted(h, notes[..|notes| - 1]), SYSTEM, SystemNote, notes[|notes| - 1] + 2, actions);
    }
  }

  lemma VersionedAdds(h: History, uid: UserId, action: Action, tf: int, tc: int, notes: seq<int>, tb: int, passed: bool)
    ensures OnlyAdds(h, Versioned(h, uid, action, tf, tc, notes, tb, passed),
                     {action, SystemNote, Approve, RequestChanges})
  {
    hide Said, Has;
    var actions := {action, SystemNote, Approve, RequestChanges};
    assert OnlyAdds(h, Stored(h, uid, tf), actions) by { StoredAddsNothing(h, uid, tf); }
    SaidOnlyAdds(h, Stored(h, uid, tf), uid, action, tc, actions);
    NotedAdds(h, Said(Stored(h, uid, tf), uid, action, tc), notes, actions);
    SaidOnlyAdds(h, Noted(Said(Stored(h, uid, tf), uid, action, tc), notes), VALIDATOR,
                 if passed then Approve else RequestChanges, tb + 1, actions);
  }

  lemma StoredAddsNothing(h: History, uid: UserId, tf: int)
    ensures forall a :: Has(Stored(h, uid, tf), a) <==> Has(h, a)
  {
  }

  lemma CarriedOverAdds(h: History, row: Row, approver: UserId, verifier: UserId, ta: int, tv: int)
    ensures OnlyAdds(h, CarriedOver(h, row, approver, verifier, ta, tv), {Approve, Verify})
  {
    hide Said, Has;
    SaidOnlyAdds(h, h, approver, Approve, ta + 3, {Approve, Verify});
    SaidOnlyAdds(h, Said(h, approver, Approve, ta + 3), verifier, Verify, tv + 4, {Approve, Verify});
  }

  lemma DeletionsAddNothing(h: History, id: int)
    ensures forall a :: Has(Buried(h, id), a) ==> Has(h, a)
    ensures forall a :: Has(Shredded(h, id), a) <==> Has(h, a)
    ensures forall a :: !Has(Erased(h), a)
  {
    forall a | Has(Buried(h, id), a) ensures Has(h, a) {
      var c :| c in Buried(h, id).comments && c.live && c.action == a;
      assert c in h.comments;
    }
  }

  /** Rejections and import marks come from posts the guard accepted, and from nowhere else. */
  lemma StepAdds(s: Submission, step: Step)
    ensures var s' := Next(s, step);
            forall a | a == Reject || a == MarkAdded :: Has(s'.history, a) ==>
              Has(s.history, a) || (step.Post? && step.action == a &&
                                    Accepts(s, step.uid, a, step.message, step.freezer))
    ensures !step.DeleteComment? && !step.DeleteSubmission? ==> forall a ::
              Has(s.history, a) ==> Has(Next(s, step).history, a)
  {
    hide Said, Has, Derive, Guard, Noted, Buried, Shredded, Erased, Stored;
    match step
    case Post(uid, action, _, _, t1, t2, t3) => PostedAdds(s.history, uid, action, s.autofreeze, t1, t2, t3);
    case Upload(uid, tf, tc, notes, tb, passed, _) =>
        VersionedAdds(s.history, uid, UploadFile, tf, tc, notes, tb, passed);
    case MetaEdit(uid, tf, tc, notes, tb, passed, _, approver, verifier, ta, tv) =>
      VersionedAdds(s.history, uid, EditMeta, tf, tc, notes, tb, passed);
      CarriedOverAdds(Versioned(s.history, uid, EditMeta, tf, tc, notes, tb, passed), s.row, approver, verifier, ta,
                      tv);
    case OverrideBot(at) => SaidAddsAction(s.history, VALIDATOR, Approve, at);
    case ForceApprove(uid, at) => SaidAddsAction(s.history, uid, Approve, at);
    case ForceVerify(uid, at) => SaidAddsAction(s.history, uid, Verify, at);
    case DeleteComment(id) => DeletionsAddNothing(s.history, id);
    case DeleteFile(id) => DeletionsAddNothing(s.history, id);
    case DeleteSubmission => DeletionsAddNothing(s.history, 0);
    case SetFrozen(_) =>
  }

  // ---------------------------------------------------------------- rejection

  ghost predicate RejectionInv(s: Submission) {
    && s.row == Derive(s.history)
    && !(Has(s.history, Reject) && Has(s.history, MarkAdded))
  }

  lemma StepKeepsRejectionInv(s: Submission, step: Step)
    requires RejectionInv(s)
    ensures RejectionInv(Next(s, step))
  {
    hide Next, Accepts;
    RowIsDerived(s, step);
    StepAdds(s, step);
    HasIsLive(s.history);
    if step.Post? && Accepts(s, step.uid, step.action, step.message, step.freezer) {
      AcceptedFacts(s, step.uid, step.action, step.message, step.freezer);
    }
  }

  lemma AcceptedFacts(s: Submission, uid: UserId, action: Action, message: bool, freezer: bool)
    requires Accepts(s, uid, action, message, freezer)
    ensures action == MarkAdded ==> s.row.verified != {} && MarkAdded !in s.row.actions
    ensures action == Reject ==> MarkAdded !in s.row.actions && Reject !in s.row.actions
    ensures action == Verify ==> s.row.approved != {} && uid !in s.row.approved
    ensures action == Approve || action == Verify ==> s.LastUploader() != Some(uid)
  {
  }

  lemma {:induction false} RunKeepsRejectionInv(trace: seq<Submission>, steps: seq<Step>, i: nat)
    requires Run(trace, steps) && i < |trace|
    ensures RejectionInv(trace[i])
    decreases i
  {
    hide Next, Derive;
    if i > 0 {
      RunKeepsRejectionInv(trace, steps, i - 1);
      StepKeepsRejectionInv(trace[i - 1], steps[i - 1]);
    }
  }

  /**
   Rejection is absorbing. In every run, deletions, Force steps and meta edits included: a live
   rejection never coexists with an import mark; while it is live all five reviewer sets are
   empty, no approval, verification, verification assignment, import mark, posted upload or
   second rejection is accepted; and only deleting the comment or the submission ends it.
   */
  lemma RejectionIsAbsorbing(trace: seq<Submission>, steps: seq<Step>, i: nat, uid: UserId, message: bool,
                             freezer: bool)
    requires Run(trace, steps) && i < |trace| && Has(trace[i].history, Reject)
    ensures !Has(trace[i].history, MarkAdded)
    ensures var r := trace[i].row;
            r.testing == {} && r.verification == {} && r.requested == {} && r.approved == {} && r.verified == {} &&
                r.actions == {Reject}
    ensures forall action | action in {Approve, Verify, AssignVerification, MarkAdded, Reject, UploadFile} ::
              !Accepts(trace[i], uid, action, message, freezer)
    ensures i < |steps| && !Has(trace[i + 1].history, Reject) ==> steps[i].DeleteComment? || steps[i].DeleteSubmission?
  {
    hide Next;
    RunKeepsRejectionInv(trace, steps, i);
    HasIsLive(trace[i].history);
    if i < |steps| {
      StepAdds(trace[i], steps[i]);
      assert trace[i + 1] == Next(trace[i], steps[i]);
    }
  }

  // ---------------------------------------------------------------- disjoint roles

  ghost predicate RolesInv(s: Submission) {
    && s.row == Derive(s.history)
    && (Has(s.history, Reject) || RolesOf(s.history).Disjoint())
  }

  /** While nothing is rejected the row shows the roles the queries compute. */
  lemma RowShowsRoles(s: Submission)
    requires s.row == Derive(s.history) && !Has(s.history, Reject)
    ensures RolesOf(s.history) == Roles(s.row.testing, s.row.verification, s.row.requested, s.row.approved,
                                        s.row.verified)
    ensures s.row.actions == LiveActions(s.history)
  {
    HasIsLive(s.history);
  }

  lemma AcceptedPostKeepsDisjoint(s: Submission, r: Roles, uid: UserId, action: Action, message: bool, freezer: bool,
                                  hasFile: bool)
    requires Accepts(s, uid, action, message, freezer)
    requires r == Roles(s.row.testing, s.row.verification, s.row.requested, s.row.approved, s.row.verified)
    requires r.Disjoint()
    ensures PostedRoles(r, uid, action, hasFile).Disjoint()
  {
  }

  lemma CarriedRolesDisjoint(r: Roles, row: Row, approver: UserId, verifier: UserId)
    requires r.Disjoint() && r.approved == {} && r.verified == {}
    requires row.approved !! row.verified && r.testing == row.testing && r.verification == row.verification
    requires row.testing !! row.approved && row.testing !! row.verified && row.verification !! row.approved &&
              row.verification !! row.verified
    requires row.approved != {} ==> approver in row.approved
    requires row.verified != {} ==> verifier in row.verified
    ensures CarriedRoles(r, row, approver, verifier).Disjoint()
  {
  }

  lemma MetaEditRoles(s: Submission, step: Step)
    requires step.MetaEdit? && Timed(s, step) && !s.deleted && !s.frozen && MarkAdded !in s.row.actions
    ensures RolesOf(Next(s, step).history) ==
            CarriedRoles(Updated(RolesOf(s.history).(approved := {}, verified := {}), step.uid, EditMeta, true),
                         s.row, step.approver, step.verifier)
    ensures NewestFile(Next(s, step).history.files) == Some(File(FreshFileId(s.history.files), step.uid, step.tf, true))
  {
    hide RolesOf, Updated, NewestFile, Derive, Versioned, CarriedOver, CarriedRoles;
    VersionUpdatesRoles(s.history, step.uid, EditMeta, step.tf, step.tc, step.notes, step.tb, step.passed);
    var h := Versioned(s.history, step.uid, EditMeta, step.tf, step.tc, step.notes, step.tb, step.passed);
    CarryOverUpdatesRoles(h, s.row, step.approver, step.verifier, step.ta, step.tv);
  }

  /** The roles after an accepted post or an upload, as set updates. */
  lemma PostRoles(s: Submission, step: Step)
    requires step.Post? && Timed(s, step) && Accepts(s, step.uid, step.action, step.message, step.freezer)
    ensures RolesOf(Next(s, step).history) == PostedRoles(RolesOf(s.history), step.uid, step.action,
                                                          NewestFile(s.history.files).Some?)
    ensures Next(s, step).history.files == s.history.files
  {
    hide RolesOf, Updated, NewestFile, Derive, Posted, PostedRoles, Guard;
    PostUpdatesRoles(s.history, step.uid, step.action, s.autofreeze, step.t1, step.t2, step.t3);
  }

  lemma UploadRoles(s: Submission, step: Step)
    requires step.Upload? && Timed(s, step) && !s.deleted && !s.frozen
    ensures RolesOf(Next(s, step).history) == Updated(RolesOf(s.history).(approved := {}, verified := {}), step.uid,
                                                      UploadFile, true)
    ensures NewestFile(Next(s, step).history.files) == Some(File(FreshFileId(s.history.files), step.uid, step.tf, true))
  {
    hide RolesOf, Updated, NewestFile, Derive, Versioned;
    VersionUpdatesRoles(s.history, step.uid, UploadFile, step.tf, step.tc, step.notes, step.tb, step.passed);
  }

  lemma OverrideRoles(s: Submission, step: Step)
    requires step.OverrideBot? && Timed(s, step) && !s.deleted && !s.frozen
    ensures RolesOf(Next(s, step).history) == RolesOf(s.history) && Next(s, step).history.files == s.history.files
  {
    hide RolesOf, Updated, NewestFile, Derive;
    SaidUpdatesRoles(s.history, VALIDATOR, Approve, step.at);
    SystemNoteIsNeutral(RolesOf(s.history), NewestFile(s.history.files).Some?);
  }

  lemma StepKeepsDisjoint(s: Submission, step: Step)
    requires RolesInv(s) && Timed(s, step) && Regular(step)
    ensures RolesInv(Next(s, step))
  {
    hide Derive, RolesOf, Has, PostedRoles, CarriedRoles, Posted, Versioned, CarriedOver, Accepts, Said, NewestFile;
    RowIsDerived(s, step);
    StepAdds(s, step);
    if !Has(s.history, Reject) {
      RowShowsRoles(s);
      match step
      case Post(uid, action, message, freezer, _, _, _) =>
        if !s.deleted && Accepts(s, uid, action, message, freezer) {
          PostRoles(s, step);
          AcceptedPostKeepsDisjoint(s, RolesOf(s.history), uid, action, message, freezer,
                                    NewestFile(s.history.files).Some?);
        }
      case Upload(_, _, _, _, _, _, _) => if !s.deleted && !s.frozen { UploadRoles(s, step); }
      case MetaEdit(_, _, _, _, _, _, _, approver, verifier, _, _) =>
        if !s.deleted && !s.frozen && MarkAdded !in s.row.actions {
          MetaEditRoles(s, step);
          CarriedRolesDisjoint(Updated(RolesOf(s.history).(approved := {}, verified := {}), step.uid, EditMeta, true),
                               s.row, approver, verifier);
        }
      case OverrideBot(_) => if !s.deleted && !s.frozen { OverrideRoles(s, step); }
      case SetFrozen(_) =>
    }
  }

  lemma EmptyHistoryRoles()
    ensures RolesOf(History([], [])) == Roles({}, {}, {}, {}, {}) && !Has(History([], []), Reject)
  {
  }

  lemma {:induction false} RunKeepsDisjoint(trace: seq<Submission>, steps: seq<Step>, i: nat)
    requires Run(trace, steps) && (forall k | 0 <= k < |steps| :: Regular(steps[k])) && i < |trace|
    ensures RolesInv(trace[i])
    decreases i
  {
    hide Next, Derive, RolesOf, Has;
    if i > 0 {
      RunKeepsDisjoint(trace, steps, i - 1);
      StepKeepsDisjoint(trace[i - 1], steps[i - 1]);
    } else {
      EmptyHistoryRoles();
    }
  }

  /**
   Disjoint roles. In every run of posted actions, uploads, meta edits, bot overrides and
   freezes, nobody is in two of the assigned-testing, assigned-verification, approved and
   verified sets of the stored row.
   */
  lemma RolesStayDisjoint(trace: seq<Submission>, steps: seq<Step>, i: nat)
    requires Run(trace, steps) && (forall k | 0 <= k < |steps| :: Regular(steps[k])) && i < |trace|
    ensures var r := trace[i].row; Roles(r.testing, r.verification, r.requested, r.approved, r.verified).Disjoint()
  {
    hide Next;
    RunKeepsDisjoint(trace, steps, i);
    if Has(trace[i].history, Reject) { HasIsLive(trace[i].history); } else { RowShowsRoles(trace[i]); }
  }
}
