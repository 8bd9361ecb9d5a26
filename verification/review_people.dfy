/** Importing a submission takes three people: its uploader, an approver, and a later verifier. */
module ReviewPeople {
  import opened ReviewHistory
  import opened ReviewRoles
  import opened ReviewMachine
  import opened ReviewRuns

  /** Posted actions, full uploads, bot overrides and freezes: no deletion, meta edit or Force step. */
  predicate PostsAndUploads(step: Step) {
    step.Post? || step.Upload? || step.OverrideBot? || step.SetFrozen?
  }

  /** `approval` and then `verification` review this very version, by two people other than its uploader. */
  ghost predicate ReviewsVersion(h: History, f: File, approval: Comment, verification: Comment) {
    && approval in h.comments && approval.live && approval.action == Approve && approval.author != VALIDATOR
    && verification in h.comments && verification.live && verification.action == Verify &&
        verification.author != VALIDATOR
    && f.at < approval.at < verification.at
    && approval.author != verification.author
    && approval.author != f.uploader && verification.author != f.uploader
  }

  ghost predicate ReviewedBy(h: History, f: File, verifier: UserId) {
    exists approval, verification :: ReviewsVersion(h, f, approval, verification) && verification.author == verifier
  }

  ghost predicate PeopleInv(s: Submission) {
    && s.row == Derive(s.history)
    && (Has(s.history, Reject) ||
        match NewestFile(s.history.files)
        case None => Approved(s.history) == {} && Verified(s.history) == {}
        case Some(f) => f.uploader !in Approved(s.history) && forall v | v in Verified(s.history) ::
            ReviewedBy(s.history, f, v))
  }

  /** More comments never undo a completed review. */
  lemma ReviewedByGrows(h: History, h': History, f: File, v: UserId)
    requires ReviewedBy(h, f, v) && forall c | c in h.comments :: c in h'.comments
    ensures ReviewedBy(h', f, v)
  {
    var approval, verification :| ReviewsVersion(h, f, approval, verification) && verification.author == v;
    assert ReviewsVersion(h', f, approval, verification);
  }

  lemma PostedKeepsComments(h: History, uid: UserId, action: Action, autofreeze: bool, t1: int, t2: int, t3: int)
    ensures var h' := Posted(h, uid, action, autofreeze, t1, t2, t3);
            && (forall c | c in h.comments :: c in h'.comments)
            && exists c :: c in h'.comments && c.live && c.author == uid && c.action == action && c.at == t1
  {
    var c := Comment(FreshCommentId(h.comments), uid, action, t1, true);
    assert c in Said(h, uid, action, t1).comments;
  }

  /** An active approver's latest approval is of the newest version. */
  lemma ApproverHasApproval(h: History, f: File, approver: UserId) returns (approval: Comment)
    requires NewestFile(h.files) == Some(f) && approver in Approved(h)
    ensures approval in h.comments && approval.live && approval.action == Approve
    ensures approval.author == approver && approver != VALIDATOR && f.at < approval.at
  {
    approval := Ranked(h.comments, approver, {Approve}).value;
  }

  lemma NoFileNoReview(h: History)
    requires NewestFile(h.files).None?
    ensures Approved(h) == {} && Verified(h) == {}
  {
    assert forall u, on: set<Action> :: RankedAfter(h.comments, u, on, After(None)).None?;
  }

  lemma SomeMember(users: set<UserId>) returns (u: UserId)
    requires users != {}
    ensures u in users
  {
    assert (forall x :: x !in users) ==> users == {};
    u :| u in users;
  }

  lemma VerificationCompletesReview(s: Submission, step: Step, f: File)
    requires PeopleInv(s) && !Has(s.history, Reject) && NewestFile(s.history.files) == Some(f)
    requires step.Post? && step.action == Verify && Timed(s, step) && step.uid != VALIDATOR
    requires Accepts(s, step.uid, Verify, step.message, step.freezer)
    ensures ReviewedBy(Next(s, step).history, f, step.uid)
  {
    hide Derive, Said, NewestFile, EnabledUsers, Has, Guard;
    RowShowsRoles(s);
    AcceptedFacts(s, step.uid, Verify, step.message, step.freezer);
    var approver := SomeMember(s.row.approved);
    var approval := ApproverHasApproval(s.history, f, approver);
    PostedKeepsComments(s.history, step.uid, Verify, s.autofreeze, step.t1, step.t2, step.t3);
    var h' := Next(s, step).history;
    assert h' == Posted(s.history, step.uid, Verify, s.autofreeze, step.t1, step.t2, step.t3);
    var verification :| verification in h'.comments && verification.live && verification.author == step.uid
                        && verification.action == Verify && verification.at == step.t1;
    assert ReviewsVersion(h', f, approval, verification);
  }

  lemma PostKeepsReviews(s: Submission, step: Step, f: File, v: UserId)
    requires PeopleInv(s) && !Has(s.history, Reject) && step.Post? && Timed(s, step)
    requires Accepts(s, step.uid, step.action, step.message, step.freezer)
    requires NewestFile(s.history.files) == Some(f) && v in Verified(Next(s, step).history)
    ensures ReviewedBy(Next(s, step).history, f, v)
  {
    hide Derive, Said, NewestFile, EnabledUsers, Has, Posted, Guard, ReviewedBy;
    PostRoles(s, step);
    PostedKeepsComments(s.history, step.uid, step.action, s.autofreeze, step.t1, step.t2, step.t3);
    AcceptedFacts(s, step.uid, step.action, step.message, step.freezer);
    if v in Verified(s.history) {
      ReviewedByGrows(s.history, Next(s, step).history, f, v);
    } else {
      assert step.action == Verify && v == step.uid;
      VerificationCompletesReview(s, step, f);
    }
  }

  lemma PostKeepsPeople(s: Submission, step: Step)
    requires PeopleInv(s) && !Has(s.history, Reject) && step.Post? && Timed(s, step)
    requires Accepts(s, step.uid, step.action, step.message, step.freezer)
    ensures PeopleInv(Next(s, step))
  {
    hide Derive, Said, NewestFile, EnabledUsers, Has, Posted, Guard, ReviewedBy;
    RowIsDerived(s, step);
    PostRoles(s, step);
    var h' := Next(s, step).history;
    var newest := NewestFile(s.history.files);
    if newest.None? {
      NoFileNoReview(h');
    } else {
      AcceptedFacts(s, step.uid, step.action, step.message, step.freezer);
      RowShowsRoles(s);
      assert s.LastUploader() == Some(newest.value.uploader);
      forall v | v in Verified(h') ensures ReviewedBy(h', newest.value, v) {
        PostKeepsReviews(s, step, newest.value, v);
      }
    }
  }

  lemma StepKeepsPeople(s: Submission, step: Step)
    requires PeopleInv(s) && Timed(s, step) && PostsAndUploads(step)
    ensures PeopleInv(Next(s, step))
  {
    hide Derive, Has, Posted, Versioned, CarriedOver, Accepts, Said, NewestFile, EnabledUsers;
    RowIsDerived(s, step);
    StepAdds(s, step);
    if !Has(s.history, Reject) && !s.deleted {
      match step
      case Post(uid, action, message, freezer, _, _, _) =>
        if Accepts(s, uid, action, message, freezer) { PostKeepsPeople(s, step); }
      case Upload(_, _, _, _, _, _, _) => if !s.frozen { UploadRoles(s, step); }
      case OverrideBot(_) =>
        if !s.frozen {
          OverrideRoles(s, step);
          OverrideKeepsPeople(s, step);
        }
      case SetFrozen(_) =>
    }
  }

  lemma OverrideKeepsPeople(s: Submission, step: Step)
    requires PeopleInv(s) && !Has(s.history, Reject) && step.OverrideBot? && !s.deleted && !s.frozen
    requires RolesOf(Next(s, step).history) == RolesOf(s.history) && Next(s, step).history.files == s.history.files
    ensures PeopleInv(Next(s, step))
  {
    hide Derive, Has, NewestFile, EnabledUsers;
    RowIsDerived(s, step);
    var h' := Next(s, step).history;
    assert forall c | c in s.history.comments :: c in h'.comments;
    if NewestFile(s.history.files).Some? {
      var f := NewestFile(s.history.files).value;
      forall v | v in Verified(h') ensures ReviewedBy(h', f, v) {
        ReviewedByGrows(s.history, h', f, v);
      }
    }
  }

  lemma {:induction false} RunKeepsPeople(trace: seq<Submission>, steps: seq<Step>, i: nat)
    requires Run(trace, steps) && (forall k | 0 <= k < |steps| :: PostsAndUploads(steps[k])) && i < |trace|
    ensures PeopleInv(trace[i])
    decreases i
  {
    hide Next, Derive, RolesOf, Has;
    if i > 0 {
      RunKeepsPeople(trace, steps, i - 1);
      StepKeepsPeople(trace[i - 1], steps[i - 1]);
    } else {
      NoFileNoReview(History([], []));
    }
  }

  /**
   Three distinct people. In every run of posted actions and full uploads, whenever marking as
   added is accepted there is a newest version, an approval of it and a later verification of
   it, and the uploader, the approver and the verifier are three different users.
   */
  lemma ImportTakesThreePeople(trace: seq<Submission>, steps: seq<Step>, i: nat, uid: UserId, message: bool,
                               freezer: bool)
    requires Run(trace, steps) && (forall k | 0 <= k < |steps| :: PostsAndUploads(steps[k])) && i < |trace|
    requires Accepts(trace[i], uid, MarkAdded, message, freezer)
    ensures exists f, approval, verification ::
              NewestFile(trace[i].history.files) == Some(f) &&
                  ReviewsVersion(trace[i].history, f, approval, verification)
  {
    hide Next, Guard, PeopleInv, PostsAndUploads;
    RunKeepsPeople(trace, steps, i);
    CompleteImport(trace[i], uid, message, freezer);
  }

  lemma CompleteImport(s: Submission, uid: UserId, message: bool, freezer: bool)
    requires PeopleInv(s) && Accepts(s, uid, MarkAdded, message, freezer)
    ensures exists f, approval, verification ::
              NewestFile(s.history.files) == Some(f) && ReviewsVersion(s.history, f, approval, verification)
  {
    hide Guard, EnabledUsers, NewestFile, Has;
    AcceptedFacts(s, uid, MarkAdded, message, freezer);
    HasIsLive(s.history);
    assert !Has(s.history, Reject);
    RowShowsRoles(s);
    var v := SomeMember(Verified(s.history));
    var f := NewestFile(s.history.files).value;
    assert ReviewedBy(s.history, f, v);
    var approval, verification :| ReviewsVersion(s.history, f, approval, verification);
  }
}
