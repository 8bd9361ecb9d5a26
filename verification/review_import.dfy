/**
 Completed reviews in every run whatsoever: which meta edits, Force steps and deletions, and in which
 states, let a submission be imported without three people behind its newest version.
 */
module ReviewImport {
  import opened ReviewHistory
  import opened ReviewRoles
  import opened ReviewMachine
  import opened ReviewRuns
  import opened ReviewPeople
  import opened ReviewLimits
  import opened ReviewApart

  /** There is an approval of this version by somebody who is neither its uploader nor this user. */
  ghost predicate ApprovedByAnother(h: History, f: File, user: UserId) {
    exists a :: a in h.comments && a.live && a.action == Approve && a.author !in {VALIDATOR, user, f.uploader} &&
        f.at < a.at
  }

  /** A meta edit is by a third person: neither the approver nor the verifier it carries over, who are two people. */
  predicate ByThird(s: Submission, step: Step)
    requires step.MetaEdit?
  {
    s.row.approved == {} ||
    (step.uid != step.approver && (s.row.verified != {} ==> step.verifier !in {step.uid, step.approver}))
  }

  /** The reviews that remain without `c`, and with it deleted the verifiers that remain, fit together. */
  ghost predicate CompleteWithout(h: History, c: Comment, f: File) {
    var cut := After(Some(f));
    && !HasAfter(h, c, f.uploader, {Approve}, {RequestChanges}, cut)
    && forall v | HasAfter(h, c, v, {Verify}, {RequestChanges}, cut) :: ReviewedWithout(h, c, f, v)
  }

  ghost predicate ReviewedWithout(h: History, c: Comment, f: File, v: UserId) {
    exists approval, verification ::
      ReviewsVersion(h, f, approval, verification) && verification.author == v && approval.id != c.id &&
          verification.id != c.id
  }

  /** The reviews of the older version `g` that revive with it fit together. */
  ghost predicate CompleteOn(h: History, g: File) {
    && !Unanswered(h.comments, g.uploader, {Approve}, {RequestChanges}, After(Some(g)))
    && forall v | Unanswered(h.comments, v, {Verify}, {RequestChanges}, After(Some(g))) :: ReviewedBy(h, g, v)
  }

  /** Told from the submission before the step: every review that counts afterwards is completed by three people. */
  ghost predicate KeepsComplete(s: Submission, step: Step) {
    var h := s.history;
    match step
    case MetaEdit(_, _, _, _, _, _, _, _, _, _, _) =>
      s.deleted || s.frozen || MarkAdded in s.row.actions || Has(h, Reject) || ByThird(s, step)
    case ForceApprove(uid, _) => Unforced(s, step) || uid != NewestFile(h.files).value.uploader
    case ForceVerify(uid, _) =>
      Unforced(s, step) ||
      (uid != NewestFile(h.files).value.uploader && ApprovedByAnother(h, NewestFile(h.files).value, uid))
    case DeleteComment(id) =>
      forall c | c in h.comments && c.id == id && Deletable(s, c) && NewestFile(h.files).Some? ::
        StillRejected(h, c) || CompleteWithout(h, c, NewestFile(h.files).value)
    case DeleteFile(id) =>
      DeletesNewest(s, id) && !Has(h, Reject) ==>
        forall g | NextNewest(h.files, NewestFile(h.files).value, g) :: CompleteOn(h, g)
    case _ => true
  }

  // ---------------------------------------------------------------- Force steps

  lemma ForceRoles(s: Submission, step: Step)
    requires Coherent(s) && Timed(s, step) && !s.deleted && (step.ForceApprove? || step.ForceVerify?)
    ensures var action, h' := if step.ForceApprove? then Approve else Verify, Next(s, step).history;
            && h' == Said(s.history, step.uid, action, step.at)
            && RolesOf(h') == Updated(RolesOf(s.history), step.uid, action, NewestFile(s.history.files).Some?)
            && h'.files == s.history.files && (Has(h', Reject) <==> Has(s.history, Reject))
            && forall c | c in s.history.comments :: c in h'.comments
  {
    hide Derive, RolesOf, NewestFile, Has, Updated;
    var action := if step.ForceApprove? then Approve else Verify;
    SaidUpdatesRoles(s.history, step.uid, action, step.at);
    SaidAddsAction(s.history, step.uid, action, step.at);
  }

  lemma ForceApproveComplete(s: Submission, step: Step)
    requires Coherent(s) && PeopleInv(s) && Timed(s, step) && step.ForceApprove?
    ensures PeopleInv(Next(s, step)) <==> KeepsComplete(s, step)
  {
    hide Derive, EnabledUsers, NewestFile, Has, Said, ReviewedBy, WellFormed, Timed;
    RowIsDerived(s, step);
    if !s.deleted {
      ForceRoles(s, step);
      var h, h' := s.history, Next(s, step).history;
      if !Has(h, Reject) && NewestFile(h.files).Some? {
        var f := NewestFile(h.files).value;
        assert Verified(h') == Verified(h);
        forall v | v in Verified(h') ensures ReviewedBy(h', f, v) { ReviewedByGrows(h, h', f, v); }
      }
      if NewestFile(h.files).None? { NoFileNoReview(h'); }
    }
  }

  /** One verification more: complete exactly if somebody else has approved this version. */
  lemma VerificationAdded(h: History, f: File, uid: UserId, at: int)
    requires uid != VALIDATOR && LaterThanComments(h, at)
    ensures ReviewedBy(Said(h, uid, Verify, at), f, uid) <==> uid != f.uploader && ApprovedByAnother(h, f, uid)
  {
    hide FreshCommentId;
    var c := Comment(FreshCommentId(h.comments), uid, Verify, at, true);
    var h' := Said(h, uid, Verify, at);
    assert c in h'.comments && forall x | x in h'.comments :: x in h.comments || x == c;
    if uid != f.uploader && ApprovedByAnother(h, f, uid) {
      var a :| a in h.comments && a.live && a.action == Approve && a.author !in {VALIDATOR, uid, f.uploader} &&
          f.at < a.at;
      assert ReviewsVersion(h', f, a, c);
    }
  }

  lemma ForceVerifyComplete(s: Submission, step: Step)
    requires Coherent(s) && PeopleInv(s) && Timed(s, step) && step.ForceVerify?
    ensures PeopleInv(Next(s, step)) <==> KeepsComplete(s, step)
  {
    hide Derive, EnabledUsers, NewestFile, Has, Said, ReviewedBy, WellFormed, ApprovedByAnother;
    RowIsDerived(s, step);
    if !s.deleted {
      ForceRoles(s, step);
      var h, h' := s.history, Next(s, step).history;
      if !Has(h, Reject) && NewestFile(h.files).Some? {
        var f := NewestFile(h.files).value;
        assert Approved(h') == Approved(h);
        forall v | v in Verified(h) ensures ReviewedBy(h', f, v) { ReviewedByGrows(h, h', f, v); }
        if step.uid != VALIDATOR { VerificationAdded(h, f, step.uid, step.at); }
      }
      if NewestFile(h.files).None? { NoFileNoReview(h'); }
    }
  }

  // ---------------------------------------------------------------- meta edits

  /** Approvals after this moment are all by one user. */
  ghost predicate ApprovedOnlyBy(h: History, at: int, approver: UserId) {
    forall c | c in h.comments && c.at > at && c.action == Approve && c.author != VALIDATOR :: c.author == approver
  }

  lemma SaidOnlyBy(h: History, author: UserId, action: Action, t: int, at: int, approver: UserId)
    requires ApprovedOnlyBy(h, at, approver) && (action != Approve || author == VALIDATOR || author == approver)
    ensures ApprovedOnlyBy(Said(h, author, action, t), at, approver)
  {
  }

  lemma {:induction false} NotedOnlyBy(h: History, notes: seq<int>, at: int, approver: UserId)
    requires ApprovedOnlyBy(h, at, approver)
    ensures ApprovedOnlyBy(Noted(h, notes), at, approver)
  {
    hide Said, ApprovedOnlyBy;
    if notes != [] {
      NotedOnlyBy(h, notes[..|notes| - 1], at, approver);
      SaidOnlyBy(Noted(h, notes[..|notes| - 1]), SYSTEM, SystemNote, notes[|notes| - 1] + 2, at, approver);
    }
  }

  lemma CarriedOnlyBy(s: Submission, step: Step)
    requires step.MetaEdit? && Timed(s, step) && !s.deleted && !s.frozen && MarkAdded !in s.row.actions
    ensures ApprovedOnlyBy(Next(s, step).history, step.tf, step.approver)
  {
    hide Said, Noted, ApprovedOnlyBy, Derive;
    var h := s.history;
    var stored := Stored(h, step.uid, step.tf);
    assert ApprovedOnlyBy(stored, step.tf, step.approver) by { NothingLater(stored, step.tf, step.approver); }
    SaidOnlyBy(stored, step.uid, EditMeta, step.tc, step.tf, step.approver);
    var said := Said(stored, step.uid, EditMeta, step.tc);
    NotedOnlyBy(said, step.notes, step.tf, step.approver);
    var verdict := if step.passed then Approve else RequestChanges;
    SaidOnlyBy(Noted(said, step.notes), VALIDATOR, verdict, step.tb + 1, step.tf, step.approver);
    var h1 := Said(Noted(said, step.notes), VALIDATOR, verdict, step.tb + 1);
    SaidOnlyBy(h1, step.approver, Approve, step.ta + 3, step.tf, step.approver);
    SaidOnlyBy(Said(h1, step.approver, Approve, step.ta + 3), step.verifier, Verify, step.tv + 4, step.tf,
               step.approver);
  }

  lemma NothingLater(h: History, at: int, approver: UserId)
    requires LaterThanComments(h, at)
    ensures ApprovedOnlyBy(h, at, approver)
  {
  }

  /** With both reviews carried over, the new version is reviewed exactly if three people are involved. */
  lemma CarriedReviews(s: Submission, step: Step, f: File)
    requires Coherent(s) && step.MetaEdit? && Timed(s, step) && !s.deleted && !s.frozen && MarkAdded !in s.row.actions
    requires s.row.approved != {} && s.row.verified != {} && f.uploader == step.uid && f.at == step.tf
    ensures ReviewedBy(Next(s, step).history, f, step.verifier)
       <==> step.uid != step.approver && step.verifier !in {step.uid, step.approver}
  {
    hide Derive, Versioned, Said, Has, NewestFile, EnabledUsers, WellFormed;
    var h' := Next(s, step).history;
    CarriedOnlyBy(s, step);
    ReviewersAreUsers(s, step);
    var h1 := Versioned(s.history, step.uid, EditMeta, step.tf, step.tc, step.notes, step.tb, step.passed);
    var a, v := CarriedComments(h1, s.row, step.approver, step.verifier, step.ta, step.tv);
    if step.uid != step.approver && step.verifier !in {step.uid, step.approver} {
      assert ReviewsVersion(h', f, a, v);
    }
  }

  lemma CarriedComments(h: History, row: Row, approver: UserId, verifier: UserId, ta: int, tv: int)
    returns (a: Comment, v: Comment)
    requires row.approved != {} && row.verified != {}
    ensures var rows := CarriedOver(h, row, approver, verifier, ta, tv).comments;
            && a in rows && a.live && a.action == Approve && a.author == approver && a.at == ta + 3
            && v in rows && v.live && v.action == Verify && v.author == verifier && v.at == tv + 4
  {
    hide FreshCommentId;
    var approved := Said(h, approver, Approve, ta + 3);
    a := approved.comments[|h.comments|];
    v := Said(approved, verifier, Verify, tv + 4).comments[|h.comments| + 1];
    assert a in approved.comments;
  }

  lemma ReviewersAreUsers(s: Submission, step: Step)
    requires Coherent(s) && step.MetaEdit? && Timed(s, step)
    ensures s.row.approved != {} ==> step.approver != VALIDATOR
    ensures s.row.verified != {} ==> step.verifier != VALIDATOR
  {
    hide WellFormed, NewestFile, OldestFile, BotAction;
    if s.row.approved != {} { ApproverIsNotValidator(s, step.approver); }
    if s.row.verified != {} {
      assert step.verifier in Verified(s.history);
      assert Ranked(s.history.comments, step.verifier, {Verify}).Some?;
    }
  }

  lemma MetaEditComplete(s: Submission, step: Step)
    requires Coherent(s) && PeopleInv(s) && step.MetaEdit? && Timed(s, step)
    ensures PeopleInv(Next(s, step)) <==> KeepsComplete(s, step)
  {
    hide Derive, EnabledUsers, NewestFile, Has, ReviewedBy, WellFormed, Timed, CarriedOver, Versioned;
    RowIsDerived(s, step);
    if !s.deleted && !s.frozen && MarkAdded !in s.row.actions {
      StepAdds(s, step);
      if !Has(s.history, Reject) {
        MetaEditRoles(s, step);
        ReviewersAreUsers(s, step);
        var f := File(FreshFileId(s.history.files), step.uid, step.tf, true);
        if s.row.approved != {} && s.row.verified != {} { CarriedReviews(s, step, f); }
        CarriedSets(s, step);
      }
    }
  }

  lemma CarriedSets(s: Submission, step: Step)
    requires step.MetaEdit? && (s.row.approved != {} ==> step.approver != VALIDATOR)
    requires s.row.verified != {} ==> step.verifier != VALIDATOR
    ensures var cleared := RolesOf(s.history).(approved := {}, verified := {});
            var r := CarriedRoles(Updated(cleared, step.uid, EditMeta, true), s.row, step.approver, step.verifier);
            && r.approved == (if s.row.approved != {} then {step.approver} else {})
            && r.verified == (if s.row.approved != {} && s.row.verified != {} then {step.verifier} else {})
  {
    hide RolesOf;
  }

  // ---------------------------------------------------------------- deletions

  lemma BuriedReviews(h: History, c: Comment, f: File, v: UserId)
    requires WellFormed(h) && c in h.comments
    ensures ReviewedBy(Buried(h, c.id), f, v) <==> ReviewedWithout(h, c, f, v)
  {
    hide Buried, WellFormed;
    forall d: Comment | d.live ensures d in Buried(h, c.id).comments <==> d in h.comments && d.id != c.id {
      BuriedRow(h, c.id, d);
    }
    if ReviewedBy(Buried(h, c.id), f, v) {
      var a, d :| ReviewsVersion(Buried(h, c.id), f, a, d) && d.author == v;
      assert ReviewsVersion(h, f, a, d);
    }
    if ReviewedWithout(h, c, f, v) {
      var a, d :| ReviewsVersion(h, f, a, d) && d.author == v && a.id != c.id && d.id != c.id;
      assert ReviewsVersion(Buried(h, c.id), f, a, d);
    }
  }

  lemma CommentDeletionComplete(s: Submission, id: int)
    requires Coherent(s) && PeopleInv(s)
    ensures PeopleInv(Next(s, DeleteComment(id))) <==> KeepsComplete(s, DeleteComment(id))
  {
    hide Derive, Buried, StillRejected, WellFormed, CompleteWithout, EnabledUsers, NewestFile, Has, ReviewedBy;
    var h := s.history;
    RowIsDerived(s, DeleteComment(id));
    if c :| c in h.comments && c.id == id && Deletable(s, c) {
      DeletionBuries(s, c);
      forall d | d in h.comments && d.id == id ensures d == c { SameRow(h, c, d); }
      BuriedRejection(h, c);
      BuriedKeepsFiles(h, id);
      if NewestFile(h.files).None? {
        NoFileNoReview(Buried(h, id));
      } else {
        BuriedComplete(h, c, NewestFile(h.files).value);
      }
    } else if forall c | c in h.comments :: c.id != id {
      NothingBuried(h, id);
    }
  }

  lemma BuriedComplete(h: History, c: Comment, f: File)
    requires WellFormed(h) && c in h.comments && NewestFile(h.files) == Some(f)
    ensures var h' := Buried(h, c.id);
            (f.uploader !in Approved(h') && forall v | v in Verified(h') :: ReviewedBy(h', f, v)) <==>
                CompleteWithout(h, c, f)
  {
    hide EnabledUsers, Buried, NewestFile, HasAfter, ReviewedBy, ReviewedWithout, WellFormed;
    BuriedKeepsFiles(h, c.id);
    var cut := After(Some(f));
    BuriedHas(h, c, f.uploader, {Approve}, {RequestChanges}, cut);
    forall v ensures v in Verified(Buried(h, c.id)) <==> HasAfter(h, c, v, {Verify}, {RequestChanges}, cut)
      ensures ReviewedBy(Buried(h, c.id), f, v) <==> ReviewedWithout(h, c, f, v)
    {
      BuriedHas(h, c, v, {Verify}, {RequestChanges}, cut);
      BuriedReviews(h, c, f, v);
    }
  }

  lemma FileDeletionComplete(s: Submission, id: int)
    requires Coherent(s) && PeopleInv(s)
    ensures PeopleInv(Next(s, DeleteFile(id))) <==> KeepsComplete(s, DeleteFile(id))
  {
    hide Derive, Shredded, LiveFiles, NewestFile, CompleteOn, NextNewest, Has, WellFormed, EnabledUsers, ReviewedBy;
    var h := s.history;
    RowIsDerived(s, DeleteFile(id));
    if !s.frozen && !s.deleted && LiveFiles(h.files) > 1 {
      LiveFileIsNewest(h.files);
      DeletionsAddNothing(h, id);
      var f := NewestFile(h.files).value;
      var h' := Shredded(h, id);
      ShreddedKeepsComments(h, id);
      if f.id == id {
        var g := SomeNextNewest(h, f);
        NewestAfterShredding(h, f, g);
        ShreddedComplete(h, f, g);
        forall g' | NextNewest(h.files, f, g') ensures g' == g { OnlyNextNewest(h, f, g, g'); }
      } else {
        OlderFileComplete(h, id, f);
      }
    }
  }

  lemma ShreddedComplete(h: History, f: File, g: File)
    requires WellFormed(h) && NextNewest(h.files, f, g)
    ensures var h' := Shredded(h, f.id);
            (g.uploader !in Approved(h') && forall v | v in Verified(h') :: ReviewedBy(h', g, v)) <==> CompleteOn(h, g)
  {
    hide EnabledUsers, Shredded, NewestFile, Unanswered, ReviewedBy, WellFormed, NextNewest;
    var h' := Shredded(h, f.id);
    assert h'.comments == h.comments by { ShreddedKeepsComments(h, f.id); }
    ShreddedApproved(h, f, g, g.uploader, {Approve});
    forall v ensures v in Verified(h') <==> Unanswered(h.comments, v, {Verify}, {RequestChanges}, After(Some(g)))
      ensures ReviewedBy(h', g, v) <==> ReviewedBy(h, g, v)
    {
      ShreddedApproved(h, f, g, v, {Verify});
      SameComments(h, h', g, v);
    }
  }

  lemma ShreddedKeepsComments(h: History, id: int)
    ensures Shredded(h, id).comments == h.comments
  {
  }

  lemma SameComments(h: History, h': History, f: File, v: UserId)
    requires h'.comments == h.comments
    ensures ReviewedBy(h', f, v) <==> ReviewedBy(h, f, v)
  {
    if ReviewedBy(h, f, v) { ReviewedByGrows(h, h', f, v); }
    if ReviewedBy(h', f, v) { ReviewedByGrows(h', h, f, v); }
  }

  lemma OlderFileComplete(h: History, id: int, f: File)
    requires WellFormed(h) && NewestFile(h.files) == Some(f) && f.id != id
    ensures var h' := Shredded(h, id);
            && NewestFile(h'.files) == Some(f) && Approved(h') == Approved(h) && Verified(h') == Verified(h)
            && forall v :: ReviewedBy(h', f, v) <==> ReviewedBy(h, f, v)
  {
    hide EnabledUsers, ReviewedBy;
    var files := Shredded(h, id).files;
    ShreddedRow(h, id, f);
    var n := NewestFile(files).value;
    ShreddedRow(h, id, n);
    SameFile(h.files, n, f);
    forall v ensures ReviewedBy(Shredded(h, id), f, v) <==> ReviewedBy(h, f, v) {
      SameComments(h, Shredded(h, id), f, v);
    }
  }

  lemma SubmissionDeletionComplete(s: Submission)
    requires PeopleInv(s)
    ensures PeopleInv(Next(s, DeleteSubmission))
  {
    hide Derive, EnabledUsers, Has;
    RowIsDerived(s, DeleteSubmission);
    var h' := Erased(s.history);
    assert forall f | f in h'.files :: !f.live;
    NoFileNoReview(h');
  }

  // ---------------------------------------------------------------- over whole runs

  /** One step of any kind keeps every review complete exactly under its condition. */
  lemma StepComplete(s: Submission, step: Step)
    requires Coherent(s) && PeopleInv(s) && Timed(s, step)
    ensures PeopleInv(Next(s, step)) <==> KeepsComplete(s, step)
  {
    hide Coherent, PeopleInv, Timed, Next, Has, NewestFile;
    match step
    case MetaEdit(_, _, _, _, _, _, _, _, _, _, _) => MetaEditComplete(s, step);
    case ForceApprove(_, _) => ForceApproveComplete(s, step);
    case ForceVerify(_, _) => ForceVerifyComplete(s, step);
    case DeleteComment(id) => CommentDeletionComplete(s, id);
    case DeleteFile(id) => FileDeletionComplete(s, id);
    case DeleteSubmission => SubmissionDeletionComplete(s);
    case _ => StepKeepsPeople(s, step);
  }

  ghost predicate CompleteSoFar(trace: seq<Submission>, n: nat)
    requires n < |trace|
  {
    forall i | 0 <= i <= n :: PeopleInv(trace[i])
  }

  ghost predicate CompletedBy(trace: seq<Submission>, steps: seq<Step>, n: nat)
    requires n < |trace| && n <= |steps|
  {
    forall k | 0 <= k < n :: KeepsComplete(trace[k], steps[k])
  }

  lemma StartsComplete(s: Submission)
    requires Init(s)
    ensures PeopleInv(s)
  {
    hide Derive, EnabledUsers;
    NoFileNoReview(History([], []));
  }

  /**
   In every run, with any deletions, meta edits and Force steps in it, all along nobody approves their
   own version and every verification that counts follows an approval of that version by another
   person, if and only if every deletion, meta edit and Force step meets its condition.
   */
  lemma {:induction false} ReviewsCompleteExactly(trace: seq<Submission>, steps: seq<Step>, n: nat)
    requires Run(trace, steps) && n < |trace|
    ensures CompleteSoFar(trace, n) <==> CompletedBy(trace, steps, n)
  {
    hide Coherent, Next, Timed, KeepsComplete, PeopleInv, Init;
    if n > 0 {
      ReviewsCompleteExactly(trace, steps, n - 1);
      RunIsCoherent(trace, steps, n - 1);
      assert Timed(trace[n - 1], steps[n - 1]) && trace[n] == Next(trace[n - 1], steps[n - 1]);
      if CompleteSoFar(trace, n - 1) {
        StepComplete(trace[n - 1], steps[n - 1]);
        assert PeopleInv(trace[n]) <==> KeepsComplete(trace[n - 1], steps[n - 1]);
      }
    } else {
      StartsComplete(trace[0]);
    }
  }

  /** So while they do, whoever imports has three people behind the newest version, whatever the run. */
  lemma ImportAfterAnySteps(trace: seq<Submission>, steps: seq<Step>, i: nat, uid: UserId, message: bool, freezer: bool)
    requires Run(trace, steps) && i < |trace| && CompletedBy(trace, steps, i)
    requires Accepts(trace[i], uid, MarkAdded, message, freezer)
    ensures exists f, approval, verification ::
              NewestFile(trace[i].history.files) == Some(f) &&
                  ReviewsVersion(trace[i].history, f, approval, verification)
  {
    hide Next, KeepsComplete, PeopleInv, Accepts, Timed;
    ReviewsCompleteExactly(trace, steps, i);
    CompleteImport(trace[i], uid, message, freezer);
  }
}
