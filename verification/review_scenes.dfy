/** Runs of the review machine that reach the limits of ReviewLimits, from an empty submission on. */
module ReviewScenes {
  import opened ReviewHistory
  import opened ReviewRoles
  import opened ReviewMachine
  import opened ReviewRuns
  import opened ReviewLimits

  function At(h: History): Submission {
    Submission(h, Derive(h), false, false, false)
  }

  function With(h: History, c: Comment): History {
    h.(comments := h.comments + [c])
  }

  /** A submission reached by posts and uploads, with nothing rejected or imported. */
  ghost predicate Open(h: History, uploader: UserId, roles: Roles, nextId: int) {
    && FreshCommentId(h.comments) == nextId && RolesOf(h) == roles
    && !Has(h, Reject) && !Has(h, MarkAdded)
    && NewestFile(h.files).Some? && NewestFile(h.files).value.uploader == uploader
  }

  lemma SaidAs(h: History, id: int, author: UserId, action: Action, at: int)
    requires FreshCommentId(h.comments) == id
    ensures Said(h, author, action, at) == With(h, Comment(id, author, action, at, true))
    ensures FreshCommentId(With(h, Comment(id, author, action, at, true)).comments) == id + 1
  {
    var c := Comment(id, author, action, at, true);
    assert (h.comments + [c])[..|h.comments|] == h.comments;
  }

  function UploadOf(uid: UserId, at: int): Step {
    Upload(uid, at, at, [], at, true, false)
  }

  function PostOf(uid: UserId, action: Action, message: bool, at: int): Step {
    Post(uid, action, message, false, at, at, at)
  }

  /** A version and its two comments. */
  function Uploaded(h: History, fileId: int, commentId: int, uid: UserId, at: int): History {
    With(With(h.(files := h.files + [File(fileId, uid, at, true)]), Comment(commentId, uid, UploadFile, at, true)),
         Comment(commentId + 1, VALIDATOR, Approve, at + 1, true))
  }

  lemma UploadScene(h: History, fileId: int, commentId: int, uid: UserId, at: int, roles: Roles)
    requires FreshFileId(h.files) == fileId && FreshCommentId(h.comments) == commentId && RolesOf(h) == roles
    requires LaterThanComments(h, at) && LaterThanFiles(h, at) && uid != VALIDATOR
    ensures Timed(At(h), UploadOf(uid, at)) &&
              Next(At(h), UploadOf(uid, at)) == At(Uploaded(h, fileId, commentId, uid, at))
    ensures RolesOf(Uploaded(h, fileId, commentId, uid, at))
         == Updated(roles.(approved := {}, verified := {}), uid, UploadFile, true)
    ensures FreshCommentId(Uploaded(h, fileId, commentId, uid, at).comments) == commentId + 2
    ensures NewestFile(Uploaded(h, fileId, commentId, uid, at).files) == Some(File(fileId, uid, at, true))
  {
    hide Derive, RolesOf, NewestFile, FreshCommentId, FreshFileId, Said, Updated;
    var s, step := At(h), UploadOf(uid, at);
    var stored := h.(files := h.files + [File(fileId, uid, at, true)]);
    assert Stored(h, uid, at) == stored;
    SaidAs(stored, commentId, uid, UploadFile, at);
    SaidAs(With(stored, Comment(commentId, uid, UploadFile, at, true)), commentId + 1, VALIDATOR, Approve, at + 1);
    assert Versioned(h, uid, UploadFile, at, at, [], at, true) == Uploaded(h, fileId, commentId, uid, at);
    assert Timed(s, step);
    UploadRoles(s, step);
  }

  /** A first upload to an empty submission. */
  lemma FirstUpload(uid: UserId)
    requires uid != VALIDATOR
    ensures var h0 := History([], []);
            var h := Uploaded(h0, 1, 1, uid, 0);
            && Init(At(h0)) && Timed(At(h0), UploadOf(uid, 0)) && Next(At(h0), UploadOf(uid, 0)) == At(h)
            && Open(h, uid, NOBODY, 3)
  {
    hide Derive;
    var h0 := History([], []);
    EmptyHistoryRoles();
    assert RolesOf(h0) == NOBODY;
    UploadScene(h0, 1, 1, uid, 0, NOBODY);
    NothingClosed(Uploaded(h0, 1, 1, uid, 0));
  }

  lemma NothingClosed(h: History)
    requires forall i | 0 <= i < |h.comments| :: h.comments[i].action !in {Reject, MarkAdded}
    ensures !Has(h, Reject) && !Has(h, MarkAdded)
  {
  }

  /** The comments of one post: an approval or verification also withdraws the assignment. */
  function Spoken(h: History, id: int, uid: UserId, action: Action, at: int): History {
    var said := With(h, Comment(id, uid, action, at, true));
    if action == Approve then With(said, Comment(id + 1, uid, UnassignTesting, at + 1, true))
    else if action == Verify then With(said, Comment(id + 1, uid, UnassignVerification, at + 1, true))
    else said
  }

  /** One accepted post by an entitled user. */
  lemma PostScene(h: History, uploader: UserId, roles: Roles, id: int, uid: UserId, action: Action, at: int)
    requires Open(h, uploader, roles, id) && uid != VALIDATOR && uid != uploader
    requires LaterThanComments(h, at) && LaterThanFiles(h, at)
    requires action in {AssignTesting, Approve, AssignVerification, Verify, Reject}
    requires action == AssignTesting || action == AssignVerification ==>
               uid !in roles.testing + roles.verification + roles.approved + roles.verified
    requires action == AssignVerification || action == Verify ==> roles.approved != {}
    requires action == Approve ==> uid in roles.testing && uid !in roles.approved + roles.verified
    requires action == Verify ==> uid in roles.verification && uid !in roles.approved + roles.verified
    ensures var h' := Spoken(h, id, uid, action, at);
            && Timed(At(h), PostOf(uid, action, true, at)) && Next(At(h), PostOf(uid, action, true, at)) == At(h')
            && RolesOf(h') == PostedRoles(roles, uid, action, true)
            && (action != Reject ==>
                  Open(h', uploader, PostedRoles(roles, uid, action, true),
                       if action == Approve || action == Verify then id + 2 else id + 1))
  {
    hide Derive, RolesOf, NewestFile, FreshCommentId, Said, PostedRoles, Has, Guard;
    var s, step := At(h), PostOf(uid, action, true, at);
    assert Timed(s, step);
    RowShowsRoles(s);
    HasIsLive(h);
    assert s.LastUploader() == Some(uploader);
    GuardIsEntitlement(uid, action, s);
    assert Accepts(s, uid, action, true, false);
    PostRoles(s, step);
    SaidAs(h, id, uid, action, at);
    SaidAs(With(h, Comment(id, uid, action, at, true)), id + 1, uid, UnassignTesting, at + 1);
    SaidAs(With(h, Comment(id, uid, action, at, true)), id + 1, uid, UnassignVerification, at + 1);
    StepAdds(s, step);
  }

  // ---------------------------------------------------------------- a revived assignment

  const EMPTY: History := History([], [])

  /** User 9 uploads, user 7 takes the test assignment and approves, which withdraws the assignment. */
  function Assigned(): History {
    With(Uploaded(EMPTY, 1, 1, 9, 0), Comment(3, 7, AssignTesting, 10, true))
  }

  const WITHDRAWAL: Comment := Comment(5, 7, UnassignTesting, 21, true)

  function Reviewed(): History {
    With(With(Assigned(), Comment(4, 7, Approve, 20, true)), WITHDRAWAL)
  }

  function RevivalTrace(): seq<Submission> {
    [At(EMPTY), At(Uploaded(EMPTY, 1, 1, 9, 0)), At(Assigned()), At(Reviewed()), At(Buried(Reviewed(), 5))]
  }

  function RevivalSteps(): seq<Step> {
    [UploadOf(9, 0), PostOf(7, AssignTesting, true, 10), PostOf(7, Approve, true, 20), DeleteComment(5)]
  }

  ghost predicate Moves(s: Submission, step: Step, s': Submission) {
    Timed(s, step) && s' == Next(s, step)
  }

  lemma AssignedIsOpen()
    ensures Open(Assigned(), 9, NOBODY.(testing := {7}), 4)
    ensures Moves(At(Uploaded(EMPTY, 1, 1, 9, 0)), PostOf(7, AssignTesting, true, 10), At(Assigned()))
  {
    hide Derive, RolesOf, NewestFile, FreshCommentId, Has, Next, Open;
    FirstUpload(9);
    PostScene(Uploaded(EMPTY, 1, 1, 9, 0), 9, NOBODY, 3, 7, AssignTesting, 10);
    assert {} + {7} == {7};
  }

  lemma ReviewedIsOpen()
    ensures Open(Reviewed(), 9, NOBODY.(approved := {7}), 6)
    ensures Moves(At(Assigned()), PostOf(7, Approve, true, 20), At(Reviewed()))
  {
    hide Derive, RolesOf, NewestFile, FreshCommentId, Has, Next, Open;
    AssignedIsOpen();
    PostScene(Assigned(), 9, NOBODY.(testing := {7}), 4, 7, Approve, 20);
    assert {7} - {7} == {} && {} + {7} == {7} && {} - {7} == {};
  }

  lemma ReviewedRows()
    ensures WellFormed(Reviewed()) && Reviewed().files == [File(1, 9, 0, true)]
    ensures Reviewed().comments ==
            [Comment(1, 9, UploadFile, 0, true), Comment(2, VALIDATOR, Approve, 1, true),
             Comment(3, 7, AssignTesting, 10, true), Comment(4, 7, Approve, 20, true), WITHDRAWAL]
  {
  }

  lemma WithdrawalRegains()
    ensures WITHDRAWAL in Reviewed().comments
    ensures Regains(Reviewed(), WITHDRAWAL, {AssignTesting}, {UnassignTesting}, Everything)
  {
    hide Reviewed;
    ReviewedRows();
    var rows := Reviewed().comments;
    assert rows[2] == Comment(3, 7, AssignTesting, 10, true) && rows[2] in rows && rows[4] in rows;
    assert forall d | d in rows && d.id != WITHDRAWAL.id :: d.action != UnassignTesting;
  }

  lemma WithdrawalRevivesTester()
    ensures 7 in Testing(Buried(Reviewed(), 5))
  {
    hide Enabled, Buried, NewestFile, Reviewed, Regains, Has, Open;
    ReviewedRows();
    WithdrawalRegains();
    BuriedRegains(Reviewed(), WITHDRAWAL, {AssignTesting}, {UnassignTesting}, Everything);
  }

  lemma UnassignmentKeepsApprover(h: History, c: Comment, user: UserId)
    requires WellFormed(h) && c in h.comments && c.action == UnassignTesting && user in RolesOf(h).approved &&
              !Has(h, Reject)
    ensures user in Approved(Buried(h, c.id)) && !Has(Buried(h, c.id), Reject)
  {
    hide Enabled, Buried, NewestFile, Has;
    BuriedKeepsFiles(h, c.id);
    BuriedUnconcerned(h, c, user, {Approve}, {RequestChanges}, After(NewestFile(h.files)));
    DeletionsAddNothing(h, c.id);
  }

  lemma WithdrawalKeepsApprover()
    ensures 7 in Approved(Buried(Reviewed(), 5)) && !Has(Buried(Reviewed(), 5), Reject)
  {
    hide Buried, NewestFile, Reviewed, Has, RolesOf, Approved, Moves, WellFormed, Regains, FreshCommentId;
    ReviewedRows();
    WithdrawalRegains();
    ReviewedIsOpen();
    UnassignmentKeepsApprover(Reviewed(), WITHDRAWAL, 7);
  }

  lemma WithdrawalIsDeleted()
    ensures Moves(At(Reviewed()), DeleteComment(5), At(Buried(Reviewed(), 5)))
  {
    hide Derive, Reviewed, Buried;
    ReviewedRows();
    assert forall c | c in Reviewed().comments && c.id == 5 :: c == WITHDRAWAL;
  }

  lemma MovesMakeRun(trace: seq<Submission>, steps: seq<Step>)
    requires |trace| == |steps| + 1 && Init(trace[0])
    requires forall i | 0 <= i < |steps| :: Moves(trace[i], steps[i], trace[i + 1])
    ensures Run(trace, steps)
  {
    hide Next, Timed;
    forall i | 0 <= i < |steps| ensures Timed(trace[i], steps[i]) && trace[i + 1] == Next(trace[i], steps[i]) {
      assert Moves(trace[i], steps[i], trace[i + 1]);
    }
  }

  lemma FirstUploadMoves(uid: UserId)
    requires uid != VALIDATOR
    ensures Init(At(EMPTY)) && Moves(At(EMPTY), UploadOf(uid, 0), At(Uploaded(EMPTY, 1, 1, uid, 0)))
  {
    hide Derive, Next, Open;
    FirstUpload(uid);
  }

  lemma DerivedRow(h: History)
    requires !Has(h, Reject)
    ensures Derive(h).testing == Testing(h) && Derive(h).approved == Approved(h) && Derive(h).verified == Verified(h)
  {
    HasIsLive(h);
  }

  /** Deleting the automatic unassignment after an approval makes the approver an assigned tester again. */
  lemma DeletingUnassignmentRevivesAssignment()
    ensures Run(RevivalTrace(), RevivalSteps())
    ensures RolesOf(RevivalTrace()[3].history).Disjoint()
    ensures 7 in RevivalTrace()[4].row.testing && 7 in RevivalTrace()[4].row.approved
  {
    hide Moves, RolesOf, Derive, Reviewed, Assigned, Buried, Uploaded, Has, Testing, Approved, UploadOf, PostOf, Run;
    RevivalIsRun();
    ReviewedIsOpen();
    assert RolesOf(Reviewed()) == NOBODY.(approved := {7});
    WithdrawalRevivesTester();
    WithdrawalKeepsApprover();
    DerivedRow(Buried(Reviewed(), 5));
  }

  lemma RevivalIsRun()
    ensures Run(RevivalTrace(), RevivalSteps())
  {
    hide Moves, Derive, Reviewed, Assigned, Buried, Uploaded, Init, Open, UploadOf, PostOf, Run, At;
    FirstUploadMoves(9);
    AssignedIsOpen();
    ReviewedIsOpen();
    WithdrawalIsDeleted();
    MovesMakeRun(RevivalTrace(), RevivalSteps());
  }

  // ---------------------------------------------------------------- an approver who becomes the latest uploader

  /** User 7 uploads, user 9 uploads a newer version, which user 7 then tests and approves. */
  function SecondVersion(): History {
    Uploaded(Uploaded(EMPTY, 1, 1, 7, 0), 2, 3, 9, 10)
  }

  function SecondAssigned(): History {
    With(SecondVersion(), Comment(5, 7, AssignTesting, 20, true))
  }

  function SecondReviewed(): History {
    With(With(SecondAssigned(), Comment(6, 7, Approve, 30, true)), Comment(7, 7, UnassignTesting, 31, true))
  }

  function RevertTrace(): seq<Submission> {
    [At(EMPTY), At(Uploaded(EMPTY, 1, 1, 7, 0)), At(SecondVersion()), At(SecondAssigned()), At(SecondReviewed()),
     At(Shredded(SecondReviewed(), 2))]
  }

  function RevertSteps(): seq<Step> {
    [UploadOf(7, 0), UploadOf(9, 10), PostOf(7, AssignTesting, true, 20), PostOf(7, Approve, true, 30), DeleteFile(2)]
  }

  lemma SecondVersionIsOpen()
    ensures Open(SecondVersion(), 9, NOBODY, 5)
    ensures Moves(At(Uploaded(EMPTY, 1, 1, 7, 0)), UploadOf(9, 10), At(SecondVersion()))
    ensures LaterThanComments(SecondVersion(), 20) && LaterThanFiles(SecondVersion(), 20)
  {
    hide Derive, RolesOf, NewestFile, FreshCommentId, Has, Next;
    var h := Uploaded(EMPTY, 1, 1, 7, 0);
    FirstUpload(7);
    assert [File(1, 7, 0, true)][..0] == [];
    assert h.files == [File(1, 7, 0, true)];
    UploadScene(h, 2, 3, 9, 10, NOBODY);
    NothingClosed(SecondVersion());
  }

  lemma SecondReviewedIsOpen()
    ensures Open(SecondReviewed(), 9, NOBODY.(approved := {7}), 8)
    ensures Moves(At(SecondVersion()), PostOf(7, AssignTesting, true, 20), At(SecondAssigned()))
    ensures Moves(At(SecondAssigned()), PostOf(7, Approve, true, 30), At(SecondReviewed()))
  {
    hide Derive, RolesOf, NewestFile, FreshCommentId, Has, Next, Open, SecondVersion;
    SecondVersionIsOpen();
    PostScene(SecondVersion(), 9, NOBODY, 5, 7, AssignTesting, 20);
    assert {} + {7} == {7} && {7} - {7} == {} && {} - {7} == {};
    PostScene(SecondAssigned(), 9, NOBODY.(testing := {7}), 6, 7, Approve, 30);
  }

  lemma SecondIsWellFormed()
    ensures WellFormed(SecondReviewed())
  {
    hide SecondReviewed;
    SecondReviewedRows();
    var rows := SecondReviewed().comments;
    assert forall i | 0 <= i < 7 :: rows[i].id == i + 1;
  }

  lemma SecondReviewedRows()
    ensures SecondReviewed().files == [File(1, 7, 0, true), File(2, 9, 10, true)]
    ensures SecondReviewed().comments ==
            [Comment(1, 7, UploadFile, 0, true), Comment(2, VALIDATOR, Approve, 1, true),
             Comment(3, 9, UploadFile, 10, true), Comment(4, VALIDATOR, Approve, 11, true),
             Comment(5, 7, AssignTesting, 20, true), Comment(6, 7, Approve, 30, true),
             Comment(7, 7, UnassignTesting, 31, true)]
  {
  }

  lemma TwoLiveFiles(f: File, g: File)
    requires f.live && g.live && FileBefore(f, g) && f.id != g.id
    ensures LiveFiles([f, g]) == 2 && NewestFile([f, g]) == Some(g) && NextNewest([f, g], g, f)
  {
    var files := [f, g];
    assert files[..1] == [f] && [f][..0] == [];
    assert files[0] in files && files[1] in files;
    assert LiveFiles([f]) == 1;
  }

  lemma SecondFileIsDeleted()
    ensures Moves(At(SecondReviewed()), DeleteFile(2), At(Shredded(SecondReviewed(), 2)))
  {
    hide Derive, SecondReviewed, Shredded, LiveFiles;
    SecondReviewedRows();
    TwoLiveFiles(File(1, 7, 0, true), File(2, 9, 10, true));
  }

  lemma FirstApprovalAnswers()
    ensures Unanswered(SecondReviewed().comments, 7, {Approve}, {RequestChanges}, After(Some(File(1, 7, 0, true))))
  {
    hide SecondReviewed;
    SecondReviewedRows();
    var rows := SecondReviewed().comments;
    assert rows[5] == Comment(6, 7, Approve, 30, true) && rows[5] in rows;
    assert forall i | 0 <= i < 7 :: rows[i].action != RequestChanges;
    assert Answers(rows, rows[5], 7, {Approve}, {RequestChanges}, After(Some(File(1, 7, 0, true))));
  }

  /** Deleting the newest file can leave its approver the uploader of the newest remaining version. */
  lemma DeletingNewestFileMakesApproverUploader()
    ensures Run(RevertTrace(), RevertSteps())
    ensures RevertTrace()[4].LastUploader() == Some(9) && 9 !in RevertTrace()[4].row.approved
    ensures RevertTrace()[5].LastUploader() == Some(7) && 7 in RevertTrace()[5].row.approved
  {
    hide Moves, Derive, SecondReviewed, SecondAssigned, SecondVersion, Shredded, Uploaded, Has, Run, UploadOf, PostOf,
         Unanswered, Coherent, FreshCommentId, NewestFile, LiveFiles;
    RevertIsRun();
    SecondReviewedIsOpen();
    DerivedRow(SecondReviewed());
    RevertedUploader();
  }

  lemma RevertedUploader()
    ensures At(SecondReviewed()).LastUploader() == Some(9)
    ensures var s := At(Shredded(SecondReviewed(), 2)); s.LastUploader() == Some(7) && 7 in s.row.approved
  {
    hide Derive, SecondReviewed, Shredded, Has, Unanswered, FreshCommentId, NewestFile, LiveFiles;
    var f, g := File(2, 9, 10, true), File(1, 7, 0, true);
    SecondReviewedRows();
    SecondIsWellFormed();
    SecondReviewedIsOpen();
    TwoLiveFiles(g, f);
    FirstApprovalAnswers();
    SecondFileIsDeleted();
    DeletingNewestFile(At(SecondReviewed()), f, g);
  }

  lemma RevertIsRun()
    ensures Run(RevertTrace(), RevertSteps())
  {
    hide Moves, Derive, SecondReviewed, SecondAssigned, SecondVersion, Shredded, Uploaded, Init, Open, UploadOf, PostOf,
         Run, At;
    FirstUploadMoves(7);
    SecondVersionIsOpen();
    SecondReviewedIsOpen();
    SecondFileIsDeleted();
    MovesMakeRun(RevertTrace(), RevertSteps());
  }

  // ---------------------------------------------------------------- an upload after a rejection

  /** User 9 uploads, user 8 rejects, user 9 uploads again. */
  function Rejected(): History {
    With(Uploaded(EMPTY, 1, 1, 9, 0), Comment(3, 8, Reject, 10, true))
  }

  function RejectedTrace(): seq<Submission> {
    [At(EMPTY), At(Uploaded(EMPTY, 1, 1, 9, 0)), At(Rejected()), Next(At(Rejected()), UploadOf(9, 20))]
  }

  function RejectedSteps(): seq<Step> {
    [UploadOf(9, 0), PostOf(8, Reject, true, 10), UploadOf(9, 20)]
  }

  lemma RejectedMoves()
    ensures Moves(At(Uploaded(EMPTY, 1, 1, 9, 0)), PostOf(8, Reject, true, 10), At(Rejected()))
    ensures Moves(At(Rejected()), UploadOf(9, 20), Next(At(Rejected()), UploadOf(9, 20)))
  {
    hide Derive, RolesOf, NewestFile, FreshCommentId, Has, Next, Open;
    FirstUpload(9);
    PostScene(Uploaded(EMPTY, 1, 1, 9, 0), 9, NOBODY, 3, 8, Reject, 10);
  }

  lemma RejectedIsRejected()
    ensures Coherent(At(Rejected())) && Has(Rejected(), Reject) && |Rejected().files| == 1
  {
    hide Derive;
    var rows := Rejected().comments;
    assert rows == [Comment(1, 9, UploadFile, 0, true), Comment(2, VALIDATOR, Approve, 1, true),
                    Comment(3, 8, Reject, 10, true)];
    assert rows[2] in rows;
  }

  /** A rejected submission that is not frozen takes a new version, and stays rejected. */
  lemma RejectedTakesUpload()
    ensures Run(RejectedTrace(), RejectedSteps())
    ensures Has(RejectedTrace()[2].history, Reject) &&
              Guard(9, UploadFile, RejectedTrace()[2]) == Some(UploadAfterReject)
    ensures |RejectedTrace()[3].history.files| == 2 && Has(RejectedTrace()[3].history, Reject)
  {
    hide Moves, Derive, Rejected, Uploaded, Has, Run, Init, Open, Guard, Next, Coherent, PostOf;
    FirstUploadMoves(9);
    RejectedMoves();
    RejectedIsRejected();
    MovesMakeRun(RejectedTrace(), RejectedSteps());
    UploadIsTimed();
    UploadIgnoresRejection(At(Rejected()), UploadOf(9, 20));
  }

  lemma UploadIsTimed()
    ensures Timed(At(Rejected()), UploadOf(9, 20))
  {
    hide Derive;
    RejectedMoves();
  }
}
