/**
 More runs that reach the limits of the review properties: a rejection that is deleted, reviews
 that are forced or carried over, and an approval that is deleted after the verification.
 */
module ReviewRoleScenes {
  import opened ReviewHistory
  import opened ReviewRoles
  import opened ReviewMachine
  import opened ReviewRuns
  import opened ReviewPeople
  import opened ReviewLimits
  import opened ReviewScenes
  import opened ReviewApart
  import opened ReviewImport

  /** A run of these steps, from an empty submission, ends in `s`. */
  ghost predicate Reaches(steps: seq<Step>, s: Submission) {
    exists trace :: Run(trace, steps) && trace[|steps|] == s
  }

  lemma ReachesNext(steps: seq<Step>, s: Submission, step: Step, s': Submission)
    requires Reaches(steps, s) && Moves(s, step, s')
    ensures Reaches(steps + [step], s')
  {
    hide Next, Timed, Init;
    var trace :| Run(trace, steps) && trace[|steps|] == s;
    var trace' := trace + [s'];
    assert Moves(s, step, s') ==> Timed(s, step) && s' == Next(s, step);
    forall i | 0 <= i < |steps + [step]|
      ensures Timed(trace'[i], (steps + [step])[i]) && trace'[i + 1] == Next(trace'[i], (steps + [step])[i])
    {
      if i < |steps| { assert trace'[i] == trace[i] && trace'[i + 1] == trace[i + 1]; }
    }
    assert Run(trace', steps + [step]);
  }

  lemma ReachedIsCoherent(steps: seq<Step>, s: Submission)
    requires Reaches(steps, s)
    ensures Coherent(s)
  {
    var trace :| Run(trace, steps) && trace[|steps|] == s;
    hide Run, Coherent;
    RunIsCoherent(trace, steps, |steps|);
  }

  // ---------------------------------------------------------------- user 9 uploads, user 7 approves

  const UPLOAD: seq<Step> := [UploadOf(9, 0)]
  const ASSIGN: seq<Step> := UPLOAD + [PostOf(7, AssignTesting, true, 10)]
  const APPROVE: seq<Step> := ASSIGN + [PostOf(7, Approve, true, 20)]

  lemma UploadedIsReached()
    ensures Reaches(UPLOAD, At(Uploaded(EMPTY, 1, 1, 9, 0)))
  {
    hide Derive, Moves, Uploaded;
    FirstUploadMoves(9);
    var trace := [At(EMPTY), At(Uploaded(EMPTY, 1, 1, 9, 0))];
    MovesMakeRun(trace, UPLOAD);
  }

  lemma ReviewedIsReached()
    ensures Reaches(ASSIGN, At(Assigned())) && Reaches(APPROVE, At(Reviewed()))
  {
    hide Derive, Moves, Uploaded, Assigned, Reviewed, Reaches, Open, At;
    UploadedIsReached();
    AssignedIsOpen();
    ReviewedIsOpen();
    ReachesNext(UPLOAD, At(Uploaded(EMPTY, 1, 1, 9, 0)), PostOf(7, AssignTesting, true, 10), At(Assigned()));
    ReachesNext(ASSIGN, At(Assigned()), PostOf(7, Approve, true, 20), At(Reviewed()));
  }

  // ---------------------------------------------------------------- a rejection that is deleted

  /** User 8 rejects; user 7, who has no role in the emptied sets, takes the test assignment again. */
  function RejectedReview(): History {
    With(Reviewed(), Comment(6, 8, Reject, 30, true))
  }

  function Reassigned(): History {
    With(RejectedReview(), Comment(7, 7, AssignTesting, 40, true))
  }

  const REASSIGN: seq<Step> := APPROVE + [PostOf(8, Reject, true, 30)] + [PostOf(7, AssignTesting, true, 40)]

  lemma RejectedReviewIs()
    ensures Moves(At(Reviewed()), PostOf(8, Reject, true, 30), At(RejectedReview()))
    ensures RolesOf(RejectedReview()) == NOBODY.(approved := {7}) && FreshCommentId(RejectedReview().comments) == 7
    ensures Has(RejectedReview(), Reject) && NewestFile(RejectedReview().files) == NewestFile(Reviewed().files)
    ensures LaterThanComments(RejectedReview(), 40) && LaterThanFiles(RejectedReview(), 40)
  {
    hide Derive, RolesOf, NewestFile, FreshCommentId, Next, Said, Has;
    ReviewedIsOpen();
    ReviewedRows();
    PostScene(Reviewed(), 9, NOBODY.(approved := {7}), 6, 8, Reject, 30);
    SaidAs(Reviewed(), 6, 8, Reject, 30);
    SaidAddsAction(Reviewed(), 8, Reject, 30);
  }

  /** Under a rejection the guard sees empty sets. */
  lemma AssignUnderRejection(h: History, uploader: UserId, id: int, uid: UserId, at: int)
    requires Has(h, Reject) && NewestFile(h.files).Some? && NewestFile(h.files).value.uploader == uploader
    requires FreshCommentId(h.comments) == id && uid != uploader && LaterThanComments(h, at) && LaterThanFiles(h, at)
    ensures Moves(At(h), PostOf(uid, AssignTesting, true, at), At(With(h, Comment(id, uid, AssignTesting, at, true))))
    ensures RolesOf(With(h, Comment(id, uid, AssignTesting, at, true))) == Updated(RolesOf(h), uid, AssignTesting, true)
  {
    hide RolesOf, NewestFile, FreshCommentId, Said, Has, Guard, EnabledUsers, OldestFile, Latest, BotAction;
    var s := At(h);
    HasIsLive(h);
    GuardIsEntitlement(uid, AssignTesting, s);
    assert s.LastUploader() == Some(uploader);
    assert Accepts(s, uid, AssignTesting, true, false);
    SaidAs(h, id, uid, AssignTesting, at);
    SaidUpdatesRoles(h, uid, AssignTesting, at);
  }

  lemma ReassignedIs()
    ensures Moves(At(RejectedReview()), PostOf(7, AssignTesting, true, 40), At(Reassigned()))
    ensures RolesOf(Reassigned()) == NOBODY.(approved := {7}, testing := {7})
  {
    hide Derive, RolesOf, NewestFile, FreshCommentId, Has, Moves, RejectedReview, Reviewed;
    RejectedReviewIs();
    ReviewedIsOpen();
    AssignUnderRejection(RejectedReview(), 9, 7, 7, 40);
    assert {} + {7} == {7};
  }

  lemma ReassignedRows()
    ensures Comment(6, 8, Reject, 30, true) in Reassigned().comments
    ensures !StillRejected(Reassigned(), Comment(6, 8, Reject, 30, true))
  {
    hide Reviewed;
    ReviewedRows();
    var rows := Reassigned().comments;
    assert rows[5] == Comment(6, 8, Reject, 30, true) && rows[5] in rows;
    assert forall i | 0 <= i < 7 :: rows[i].action == Reject ==> i == 5;
  }

  /**
   A run in which nobody has a role before the last step, and deleting another user's rejection
   leaves user 7 approver and assigned tester at once.
   */
  lemma DeletingRejectionRevivesRoles()
    ensures Reaches(REASSIGN, At(Reassigned())) && Shown(At(Reassigned()).row) == NOBODY
    ensures Reaches(REASSIGN + [DeleteComment(6)], Next(At(Reassigned()), DeleteComment(6)))
    ensures var row := Next(At(Reassigned()), DeleteComment(6)).row; 7 in row.testing && 7 in row.approved
  {
    hide Derive, RolesOf, Has, Moves, Reassigned, RejectedReview, Reviewed, Reaches, Coherent, StillRejected,
         NewestFile, FreshCommentId, LaterThanComments, LaterThanFiles, Next, Assigned, Buried;
    ReviewedIsReached();
    RejectedReviewIs();
    ReassignedIs();
    ReassignedRows();
    ReachesNext(APPROVE, At(Reviewed()), PostOf(8, Reject, true, 30), At(RejectedReview()));
    ReachesNext(APPROVE + [PostOf(8, Reject, true, 30)], At(RejectedReview()), PostOf(7, AssignTesting, true, 40),
                At(Reassigned()));
    ReachedIsCoherent(REASSIGN, At(Reassigned()));
    DeletionMovesRoles(At(Reassigned()), Comment(6, 8, Reject, 30, true));
    DeletionMoves(At(Reassigned()), 6);
    ReachesNext(REASSIGN, At(Reassigned()), DeleteComment(6), Next(At(Reassigned()), DeleteComment(6)));
  }

  lemma DeletionMoves(s: Submission, id: int)
    ensures Moves(s, DeleteComment(id), Next(s, DeleteComment(id)))
  {
  }

  // ---------------------------------------------------------------- forced reviews

  /** The assigned tester approves by force, and keeps the assignment. */
  lemma ForcedApproverStaysTester()
    ensures Reaches(ASSIGN + [ForceApprove(7, 20)], Next(At(Assigned()), ForceApprove(7, 20)))
    ensures var row := Next(At(Assigned()), ForceApprove(7, 20)).row; 7 in row.testing && 7 in row.approved
  {
    hide Derive, RolesOf, Has, Assigned, Reaches, Coherent, NewestFile, FreshCommentId, Next, Reviewed;
    var s, step := At(Assigned()), ForceApprove(7, 20);
    ReviewedIsReached();
    AssignedIsOpen();
    AssignedIsEarlier();
    ReachedIsCoherent(ASSIGN, s);
    ForceRoles(s, step);
    ForceShown(s, step);
    assert Moves(s, step, Next(s, step));
    ReachesNext(ASSIGN, s, step, Next(s, step));
  }

  lemma AssignedIsEarlier()
    ensures LaterThanComments(Assigned(), 20) && LaterThanFiles(Assigned(), 20)
  {
  }

  lemma ForceShown(s: Submission, step: Step)
    requires Coherent(s) && Timed(s, step) && !s.deleted && (step.ForceApprove? || step.ForceVerify?) &&
              !Has(s.history, Reject)
    ensures Shown(Next(s, step).row) == RolesOf(Next(s, step).history)
  {
    hide Derive, RolesOf, Has, NewestFile;
    ForceRoles(s, step);
    RowIsDerived(s, step);
    ShownRoles(Next(s, step).history);
  }

  function Alone(): History {
    With(With(Uploaded(EMPTY, 1, 1, 9, 0), Comment(3, 9, Approve, 10, true)), Comment(4, 9, Verify, 20, true))
  }

  const ALONE: seq<Step> := UPLOAD + [ForceApprove(9, 10)] + [ForceVerify(9, 20)]

  lemma AloneMoves()
    ensures Moves(At(Uploaded(EMPTY, 1, 1, 9, 0)), ForceApprove(9, 10),
                  At(With(Uploaded(EMPTY, 1, 1, 9, 0), Comment(3, 9, Approve, 10, true))))
    ensures Moves(At(With(Uploaded(EMPTY, 1, 1, 9, 0), Comment(3, 9, Approve, 10, true))), ForceVerify(9, 20),
                  At(Alone()))
  {
    hide Derive, RolesOf, Has, NewestFile, FreshCommentId, Said;
    var h := Uploaded(EMPTY, 1, 1, 9, 0);
    FirstUpload(9);
    SaidAs(h, 3, 9, Approve, 10);
    SaidAs(With(h, Comment(3, 9, Approve, 10, true)), 4, 9, Verify, 20);
  }

  lemma AloneRows()
    ensures Alone().comments == [Comment(1, 9, UploadFile, 0, true), Comment(2, VALIDATOR, Approve, 1, true),
                                 Comment(3, 9, Approve, 10, true), Comment(4, 9, Verify, 20, true)]
    ensures NewestFile(Alone().files) == Some(File(1, 9, 0, true))
    ensures !Has(Alone(), Reject) && !Has(Alone(), MarkAdded)
  {
    assert Alone().files == [File(1, 9, 0, true)] && [File(1, 9, 0, true)][..0] == [];
    NothingClosed(Alone());
  }

  lemma AloneVerified()
    ensures 9 in RolesOf(Alone()).verified
  {
    hide Said, NewestFile, FreshCommentId, Uploaded, Has, RolesOf, Derive, Next, Timed;
    var h := With(Uploaded(EMPTY, 1, 1, 9, 0), Comment(3, 9, Approve, 10, true));
    AloneRows();
    AloneEarlier();
    FirstUpload(9);
    SaidAs(Uploaded(EMPTY, 1, 1, 9, 0), 3, 9, Approve, 10);
    SaidAs(h, 4, 9, Verify, 20);
    SaidUpdatesRoles(h, 9, Verify, 20);
  }

  lemma AloneEarlier()
    ensures var h := With(Uploaded(EMPTY, 1, 1, 9, 0), Comment(3, 9, Approve, 10, true));
            LaterThanComments(h, 20) && LaterThanFiles(h, 20)
  {
  }

  /** The uploader alone approves and verifies by force, and may then import: nobody else has looked at it. */
  lemma OnePersonImports()
    ensures Reaches(ALONE, At(Alone())) && Accepts(At(Alone()), 9, MarkAdded, true, false)
    ensures forall f, a, v | NewestFile(Alone().files) == Some(f) :: !ReviewsVersion(Alone(), f, a, v)
  {
    hide Derive, Moves, Alone, Reaches, Uploaded, Has, NewestFile, Accepts;
    UploadedIsReached();
    AloneMoves();
    var h := With(Uploaded(EMPTY, 1, 1, 9, 0), Comment(3, 9, Approve, 10, true));
    ReachesNext(UPLOAD, At(Uploaded(EMPTY, 1, 1, 9, 0)), ForceApprove(9, 10), At(h));
    ReachesNext(UPLOAD + [ForceApprove(9, 10)], At(h), ForceVerify(9, 20), At(Alone()));
    AloneRows();
    AloneVerified();
    ImportAccepted(At(Alone()), 9, 9);
  }

  /** Importing takes a verifier, and nothing that closes the review. */
  lemma ImportAccepted(s: Submission, verifier: UserId, uid: UserId)
    requires s.row == Derive(s.history) && !s.frozen && !s.deleted && !Has(s.history, Reject) &&
              !Has(s.history, MarkAdded)
    requires verifier in RolesOf(s.history).verified
    ensures Accepts(s, uid, MarkAdded, true, false)
  {
    hide EnabledUsers, Has, NewestFile, OldestFile, Latest, BotAction;
    HasIsLive(s.history);
    GuardIsEntitlement(uid, MarkAdded, s);
  }

  // ---------------------------------------------------------------- after a verification

  /** User 8 takes the verification of user 7's approval. */
  function Checking(): History {
    With(Reviewed(), Comment(6, 8, AssignVerification, 30, true))
  }

  function Checked(): History {
    With(With(Checking(), Comment(7, 8, Verify, 40, true)), Comment(8, 8, UnassignVerification, 41, true))
  }

  const CHECK: seq<Step> := APPROVE + [PostOf(8, AssignVerification, true, 30)] + [PostOf(8, Verify, true, 40)]

  lemma CheckingIsOpen()
    ensures Open(Checking(), 9, NOBODY.(approved := {7}, verification := {8}), 7)
    ensures Moves(At(Reviewed()), PostOf(8, AssignVerification, true, 30), At(Checking()))
    ensures LaterThanComments(Checking(), 40) && LaterThanFiles(Checking(), 40)
  {
    hide Derive, RolesOf, NewestFile, FreshCommentId, Has, Next, Open;
    ReviewedIsOpen();
    ReviewedRows();
    PostScene(Reviewed(), 9, NOBODY.(approved := {7}), 6, 8, AssignVerification, 30);
    assert {} + {8} == {8};
  }

  lemma CheckedIsOpen()
    ensures Open(Checked(), 9, NOBODY.(approved := {7}, verified := {8}), 9)
    ensures Moves(At(Checking()), PostOf(8, Verify, true, 40), At(Checked()))
  {
    hide Derive, RolesOf, NewestFile, FreshCommentId, Has, Next, Open, Checking, LaterThanComments, LaterThanFiles;
    CheckingIsOpen();
    PostScene(Checking(), 9, NOBODY.(approved := {7}, verification := {8}), 7, 8, Verify, 40);
    assert {8} - {8} == {} && {} + {8} == {8} && {} - {8} == {};
  }

  lemma CheckedIsReached()
    ensures Reaches(CHECK, At(Checked())) && Coherent(At(Checked()))
  {
    hide Derive, Moves, Checked, Checking, Reviewed, Assigned, Reaches, Open, Coherent, LaterThanComments,
         LaterThanFiles, At;
    ReviewedIsReached();
    CheckingIsOpen();
    CheckedIsOpen();
    ReachesNext(APPROVE, At(Reviewed()), PostOf(8, AssignVerification, true, 30), At(Checking()));
    ReachesNext(APPROVE + [PostOf(8, AssignVerification, true, 30)], At(Checking()), PostOf(8, Verify, true, 40),
                At(Checked()));
    ReachedIsCoherent(CHECK, At(Checked()));
  }

  lemma CheckedComments()
    ensures Checked().files == [File(1, 9, 0, true)]
    ensures Checked().comments ==
            [Comment(1, 9, UploadFile, 0, true), Comment(2, VALIDATOR, Approve, 1, true),
             Comment(3, 7, AssignTesting, 10, true), Comment(4, 7, Approve, 20, true), WITHDRAWAL,
             Comment(6, 8, AssignVerification, 30, true), Comment(7, 8, Verify, 40, true),
             Comment(8, 8, UnassignVerification, 41, true)]
  {
    hide Reviewed;
    ReviewedRows();
  }

  lemma CheckedRows()
    ensures LaterThanComments(Checked(), 50) && LaterThanFiles(Checked(), 50)
    ensures Comment(4, 7, Approve, 20, true) in Checked().comments
    ensures forall c | c in Checked().comments && c.action == Approve :: c.id == 4 || c.author == VALIDATOR
  {
    hide Checked;
    CheckedComments();
    var rows := Checked().comments;
    assert rows[3] == Comment(4, 7, Approve, 20, true) && rows[3] in rows;
    assert forall i | 0 <= i < 8 :: rows[i].at < 50 && (rows[i].action == Approve ==> i == 1 || i == 3);
  }

  const OWN_EDIT: Step := MetaEdit(7, 50, 50, [], 50, true, false, 7, 8, 50, 50)

  lemma OwnEditMoves()
    ensures Timed(At(Checked()), OWN_EDIT) && MarkAdded !in At(Checked()).row.actions
    ensures At(Checked()).row.approved == {7} && At(Checked()).row.verified == {8}
    ensures !Has(Checked(), Reject) && !Has(Checked(), MarkAdded)
  {
    hide Checked, NewestFile, FreshCommentId, Has, Derive, RolesOf;
    CheckedRows();
    CheckedIsOpen();
    ShownRoles(Checked());
    RowShowsRoles(At(Checked()));
    HasIsLive(Checked());
  }

  /**
   The approver edits the metadata. The new version carries over both reviews, so it has its own
   uploader's approval, and it may be imported although no other person has approved it.
   */
  lemma MetaEditCarriesOwnApproval()
    ensures var s' := Next(At(Checked()), OWN_EDIT);
            && Reaches(CHECK + [OWN_EDIT], s') && s'.LastUploader() == Some(7) && 7 in s'.row.approved
            && Accepts(s', 9, MarkAdded, true, false)
            && forall f, a, v | NewestFile(s'.history.files) == Some(f) :: !ReviewsVersion(s'.history, f, a, v)
  {
    hide Derive, Checked, Reaches, NewestFile, Has, Accepts, Coherent, Next, Timed, EnabledUsers, CarriedRoles, RolesOf;
    var s := At(Checked());
    var s' := Next(s, OWN_EDIT);
    CheckedIsReached();
    OwnEditMoves();
    assert Moves(s, OWN_EDIT, s');
    ReachesNext(CHECK, s, OWN_EDIT, s');
    MetaEditOwnApproval(s, OWN_EDIT);
    CarriedOnlyBy(s, OWN_EDIT);
    MetaEditRoles(s, OWN_EDIT);
    CarriedSets(s, OWN_EDIT);
    StepAdds(s, OWN_EDIT);
    RowIsDerived(s, OWN_EDIT);
    assert 8 in RolesOf(s'.history).verified;
    EditedOpen(s, OWN_EDIT);
    ImportAccepted(s', 8, 9);
  }

  lemma EditedOpen(s: Submission, step: Step)
    requires step.MetaEdit? && !s.deleted && !s.frozen
    ensures !Next(s, step).deleted && !Next(s, step).frozen
  {
  }

  /** The approval is deleted after the verification: the import still goes through, with no approval left. */
  lemma DeletedApprovalStillImports()
    ensures var s' := Next(At(Checked()), DeleteComment(4));
            && Reaches(CHECK + [DeleteComment(4)], s') && Accepts(s', 9, MarkAdded, true, false)
            && forall f, a, v :: !ReviewsVersion(s'.history, f, a, v)
  {
    hide Derive, Checked, Reaches, NewestFile, Has, Accepts, EnabledUsers, RolesOf, Buried, StillRejected;
    var s, c := At(Checked()), Comment(4, 7, Approve, 20, true);
    CheckedIsReached();
    CheckedRows();
    OwnEditMoves();
    ReachesNext(CHECK, s, DeleteComment(4), Next(s, DeleteComment(4)));
    DeletionBuries(s, c);
    DeletionMovesRoles(s, c);
    BuriedRejection(Checked(), c);
    DeletionsAddNothing(Checked(), 4);
    ShownRoles(Buried(Checked(), 4));
    assert SameFor(Shown(s.row), Shown(Next(s, DeleteComment(4)).row), 8);
    assert 8 in RolesOf(Buried(Checked(), 4)).verified;
    ImportAccepted(Next(s, DeleteComment(4)), 8, 9);
    forall d: Comment | d in Buried(Checked(), 4).comments && d.live ensures d in Checked().comments && d.id != 4 {
      BuriedRow(Checked(), 4, d);
    }
  }
}
