/**
 Where the review properties stop: deletions, meta edits, Force steps and uploads. For each stronger
 claim that fails, the exact condition under which it holds, about the row as it is stored.
 */
module ReviewLimits {
  import opened ReviewHistory
  import opened ReviewRoles
  import opened ReviewMachine
  import opened ReviewRuns

  ghost predicate Coherent(s: Submission) {
    WellFormed(s.history) && s.row == Derive(s.history)
  }

  const NOBODY: Roles := Roles({}, {}, {}, {}, {})

  /** The roles as the stored row has them. */
  function Shown(row: Row): Roles {
    Roles(row.testing, row.verification, row.requested, row.approved, row.verified)
  }

  /** A live rejection suppresses what the queries compute. */
  lemma ShownRoles(h: History)
    ensures Shown(Derive(h)) == if Has(h, Reject) then NOBODY else RolesOf(h)
    ensures NOBODY.Disjoint()
  {
    HasIsLive(h);
  }

  // ---------------------------------------------------------------- deleting a comment

  lemma BuriedRow(h: History, id: int, c: Comment)
    ensures c in Buried(h, id).comments && c.live ==> c in h.comments && c.id != id
    ensures c in h.comments && c.id != id ==> c in Buried(h, id).comments
  {
    if c in h.comments && c.id != id {
      var i :| 0 <= i < |h.comments| && h.comments[i] == c;
      assert Buried(h, id).comments[i] == c;
    }
  }

  lemma SameRow(h: History, a: Comment, b: Comment)
    requires WellFormed(h) && a in h.comments && b in h.comments && a.id == b.id
    ensures a == b
  {
  }

  /** Deleting a comment can only move a ranking back, and only for its author and its own action. */
  lemma BuriedRanked(h: History, c: Comment, user: UserId, named: set<Action>)
    requires WellFormed(h) && c in h.comments
    ensures var before, now := Ranked(h.comments, user, named), Ranked(Buried(h, c.id).comments, user, named);
            && (!By(c, user, named) ==> now == before)
            && (now.Some? ==> before.Some? && (now == before || Before(now.value, before.value)))
  {
    var rows := Buried(h, c.id).comments;
    var before, now := Ranked(h.comments, user, named), Ranked(rows, user, named);
    if now.Some? {
      BuriedRow(h, c.id, now.value);
      if now.value.id == before.value.id { SameRow(h, now.value, before.value); }
    }
    if before.Some? {
      BuriedRow(h, c.id, before.value);
      if before.value.id == c.id { SameRow(h, before.value, c); }
    }
  }

  lemma BuriedEnabled(h: History, c: Comment, user: UserId, on: set<Action>, off: set<Action>, cut: Cut)
    requires WellFormed(h) && c in h.comments
    ensures var rows := Buried(h, c.id).comments;
            && (c.author != user ==> (Enabled(rows, user, on, off, cut) <==> Enabled(h.comments, user, on, off, cut)))
            && (c.action !in off && Enabled(rows, user, on, off, cut) ==> Enabled(h.comments, user, on, off, cut))
  {
    hide Latest, Ranked;
    BuriedRanked(h, c, user, on);
    BuriedRanked(h, c, user, off);
  }

  /** The comments whose deletion can put their author back into a role. */
  const Withdrawals: set<Action> := {UnassignTesting, UnassignVerification, RequestChanges}

  /**
   Deleting a comment leaves every other user alone in the sets the queries compute; if the comment is
   not a withdrawal it puts nobody back, so disjoint sets stay disjoint.
   */
  lemma BuriedMovesOnlyTheAuthor(h: History, c: Comment)
    requires WellFormed(h) && c in h.comments
    ensures var r, r' := RolesOf(h), RolesOf(Buried(h, c.id));
            && (forall u | u != c.author :: SameFor(r, r', u))
            && (c.action !in Withdrawals ==>
                  && r'.testing <= r.testing && r'.verification <= r.verification
                  && r'.approved <= r.approved && r'.verified <= r.verified
                  && (r.Disjoint() ==> r'.Disjoint()))
  {
    hide Enabled, EnabledUsers, Buried, NewestFile, Latest, Ranked;
    var rows, cut := Buried(h, c.id).comments, After(NewestFile(h.files));
    assert Buried(h, c.id).files == h.files by { BuriedKeepsFiles(h, c.id); }
    forall u ensures
        (u != c.author ==> (u in Testing(Buried(h, c.id)) <==> u in Testing(h)))
        && (c.action !in Withdrawals && u in Testing(Buried(h, c.id)) ==> u in Testing(h))
    { BuriedEnabledUsers(h, c, u, {AssignTesting}, {UnassignTesting}, Everything); }
    forall u ensures
        (u != c.author ==> (u in Verification(Buried(h, c.id)) <==> u in Verification(h)))
        && (c.action !in Withdrawals && u in Verification(Buried(h, c.id)) ==> u in Verification(h))
    { BuriedEnabledUsers(h, c, u, {AssignVerification}, {UnassignVerification}, Everything); }
    forall u ensures
        (u != c.author ==> (u in Approved(Buried(h, c.id)) <==> u in Approved(h)))
        && (c.action !in Withdrawals && u in Approved(Buried(h, c.id)) ==> u in Approved(h))
    { BuriedEnabledUsers(h, c, u, {Approve}, {RequestChanges}, cut); }
    forall u ensures
        (u != c.author ==> (u in Verified(Buried(h, c.id)) <==> u in Verified(h)))
        && (c.action !in Withdrawals && u in Verified(Buried(h, c.id)) ==> u in Verified(h))
    { BuriedEnabledUsers(h, c, u, {Verify}, {RequestChanges}, cut); }
  }

  lemma BuriedKeepsFiles(h: History, id: int)
    ensures Buried(h, id).files == h.files
  {
  }

  lemma BuriedEnabledUsers(h: History, c: Comment, user: UserId, on: set<Action>, off: set<Action>, cut: Cut)
    requires WellFormed(h) && c in h.comments
    ensures var rows := Buried(h, c.id).comments;
            && (c.author != user ==> (user in EnabledUsers(rows, on, off, cut) <==>
                                      user in EnabledUsers(h.comments, on, off, cut)))
            && (c.action !in off && user in EnabledUsers(rows, on, off, cut) ==>
                user in EnabledUsers(h.comments, on, off, cut))
  {
    BuriedEnabled(h, c, user, on, off, cut);
  }

  /** Some enabling comment past the cut comes after every disabling one: the ranking queries, without the ranking. */
  ghost predicate Unanswered(rows: seq<Comment>, user: UserId, on: set<Action>, off: set<Action>, cut: Cut) {
    exists e :: e in rows && Answers(rows, e, user, on, off, cut)
  }

  ghost predicate Answers(rows: seq<Comment>, e: Comment, user: UserId, on: set<Action>, off: set<Action>, cut: Cut) {
    e.live && By(e, user, on) && cut.Passes(e) && forall d | d in rows && d.live && By(d, user, off) :: Before(d, e)
  }

  lemma EnabledIsUnanswered(rows: seq<Comment>, user: UserId, on: set<Action>, off: set<Action>, cut: Cut)
    requires on !! off
    ensures Enabled(rows, user, on, off, cut) <==> Unanswered(rows, user, on, off, cut)
  {
    var enabler, disabler := Ranked(rows, user, on), Ranked(rows, user, off);
    if Enabled(rows, user, on, off, cut) {
      forall d | d in rows && d.live && By(d, user, off) ensures Before(d, enabler.value) {
        assert disabler.Some? && !Before(disabler.value, d);
        assert cut.Passes(enabler.value);
      }
      assert Answers(rows, enabler.value, user, on, off, cut);
    }
    if Unanswered(rows, user, on, off, cut) {
      var e :| e in rows && Answers(rows, e, user, on, off, cut);
      assert enabler.Some? && !Before(enabler.value, e);
      assert disabler.Some? ==> Before(disabler.value, e);
    }
  }

  /** The author of a deleted comment regains a role: among the other comments an enabling one has the last word. */
  ghost predicate Regains(h: History, c: Comment, on: set<Action>, off: set<Action>, cut: Cut) {
    exists e :: e in h.comments && e.id != c.id && e.live && By(e, c.author, on) && cut.Passes(e)
                && forall d | d in h.comments && d.id != c.id && d.live && By(d, c.author, off) :: Before(d, e)
  }

  lemma BuriedRegains(h: History, c: Comment, on: set<Action>, off: set<Action>, cut: Cut)
    requires WellFormed(h) && c in h.comments && on !! off
    ensures Enabled(Buried(h, c.id).comments, c.author, on, off, cut) <==> Regains(h, c, on, off, cut)
  {
    hide Enabled, Buried, By;
    var rows := Buried(h, c.id).comments;
    EnabledIsUnanswered(rows, c.author, on, off, cut);
    forall d: Comment | d.live ensures d in rows <==> d in h.comments && d.id != c.id { BuriedRow(h, c.id, d); }
    if Unanswered(rows, c.author, on, off, cut) {
      var e :| e in rows && Answers(rows, e, c.author, on, off, cut);
    }
    if Regains(h, c, on, off, cut) {
      var e :| e in h.comments && e.id != c.id && e.live && By(e, c.author, on) && cut.Passes(e)
               && forall d | d in h.comments && d.id != c.id && d.live && By(d, c.author, off) :: Before(d, e);
      assert Answers(rows, e, c.author, on, off, cut);
    }
  }

  /** A role whose actions do not include the deleted one is what it was. */
  lemma BuriedUnconcerned(h: History, c: Comment, user: UserId, on: set<Action>, off: set<Action>, cut: Cut)
    requires WellFormed(h) && c in h.comments && c.action !in on + off
    ensures Enabled(Buried(h, c.id).comments, user, on, off, cut) <==> Enabled(h.comments, user, on, off, cut)
  {
    hide Latest, Ranked;
    BuriedRanked(h, c, user, on);
    BuriedRanked(h, c, user, off);
  }

  predicate SameFor(r: Roles, r': Roles, u: UserId) {
    && (u in r'.testing <==> u in r.testing) && (u in r'.verification <==> u in r.verification)
    && (u in r'.approved <==> u in r.approved) && (u in r'.verified <==> u in r.verified)
  }

  lemma DisjointByAuthor(r: Roles, r': Roles, u: UserId)
    requires r.Disjoint() && forall v | v != u :: SameFor(r, r', v)
    ensures r'.Disjoint() <==> r'.Alone(u)
  {
    DisjointByUser(r);
    DisjointByUser(r');
    forall v | v != u ensures r'.Alone(v) <==> r.Alone(v) { assert SameFor(r, r', v); }
  }

  /** Whether a user has a role once `c` is deleted, told from the history before. */
  ghost predicate HasAfter(h: History, c: Comment, user: UserId, on: set<Action>, off: set<Action>, cut: Cut) {
    if user == c.author then Regains(h, c, on, off, cut) else user in EnabledUsers(h.comments, on, off, cut)
  }

  lemma BuriedHas(h: History, c: Comment, user: UserId, on: set<Action>, off: set<Action>, cut: Cut)
    requires WellFormed(h) && c in h.comments && on !! off
    ensures user in EnabledUsers(Buried(h, c.id).comments, on, off, cut) <==> HasAfter(h, c, user, on, off, cut)
  {
    hide Enabled, Buried, Regains;
    if user == c.author {
      BuriedRegains(h, c, on, off, cut);
    } else {
      BuriedEnabledUsers(h, c, user, on, off, cut);
    }
  }

  /** Going by the comments other than `c`, and before any suppression, the user has at most one role. */
  ghost predicate AloneAfter(h: History, c: Comment, user: UserId) {
    var cut := After(NewestFile(h.files));
    AtMostOne(HasAfter(h, c, user, {AssignTesting}, {UnassignTesting}, Everything),
              HasAfter(h, c, user, {AssignVerification}, {UnassignVerification}, Everything),
              HasAfter(h, c, user, {Approve}, {RequestChanges}, cut),
              HasAfter(h, c, user, {Verify}, {RequestChanges}, cut))
  }

  lemma BuriedAlone(h: History, c: Comment, user: UserId)
    requires WellFormed(h) && c in h.comments
    ensures RolesOf(Buried(h, c.id)).Alone(user) <==> AloneAfter(h, c, user)
  {
    hide EnabledUsers, Buried, NewestFile, HasAfter;
    assert Buried(h, c.id).files == h.files by { BuriedKeepsFiles(h, c.id); }
    var cut := After(NewestFile(h.files));
    BuriedHas(h, c, user, {AssignTesting}, {UnassignTesting}, Everything);
    BuriedHas(h, c, user, {AssignVerification}, {UnassignVerification}, Everything);
    BuriedHas(h, c, user, {Approve}, {RequestChanges}, cut);
    BuriedHas(h, c, user, {Verify}, {RequestChanges}, cut);
  }

  lemma RejectionMovesNobody(h: History, c: Comment)
    requires WellFormed(h) && c in h.comments && c.action == Reject
    ensures RolesOf(Buried(h, c.id)) == RolesOf(h)
  {
    hide EnabledUsers, Buried, NewestFile;
    assert Buried(h, c.id).files == h.files by { BuriedKeepsFiles(h, c.id); }
    SameUsers(h, c, {AssignTesting}, {UnassignTesting}, Everything);
    SameUsers(h, c, {AssignVerification}, {UnassignVerification}, Everything);
    SameUsers(h, c, {RequestChanges}, {Approve, Verify, UploadFile}, Everything);
    SameUsers(h, c, {Approve}, {RequestChanges}, After(NewestFile(h.files)));
    SameUsers(h, c, {Verify}, {RequestChanges}, After(NewestFile(h.files)));
  }

  lemma SameUsers(h: History, c: Comment, on: set<Action>, off: set<Action>, cut: Cut)
    requires WellFormed(h) && c in h.comments && c.action !in on + off
    ensures EnabledUsers(Buried(h, c.id).comments, on, off, cut) == EnabledUsers(h.comments, on, off, cut)
  {
    hide Enabled, Buried;
    forall u
      ensures Enabled(Buried(h, c.id).comments, u, on, off, cut) <==> Enabled(h.comments, u, on, off, cut)
    {
      BuriedUnconcerned(h, c, u, on, off, cut);
    }
  }

  /** Another rejection stays when `c` is deleted. */
  ghost predicate StillRejected(h: History, c: Comment) {
    exists d :: d in h.comments && d.id != c.id && d.live && d.action == Reject
  }

  lemma BuriedRejection(h: History, c: Comment)
    requires WellFormed(h) && c in h.comments
    ensures Has(Buried(h, c.id), Reject) <==> StillRejected(h, c)
    ensures (c.live && c.action == Reject) || StillRejected(h, c) <==> Has(h, Reject)
  {
    hide Buried;
    forall d: Comment | d.live ensures d in Buried(h, c.id).comments <==> d in h.comments && d.id != c.id {
      BuriedRow(h, c.id, d);
    }
    forall d | d in h.comments && d.id == c.id ensures d == c { SameRow(h, c, d); }
  }

  /** What can be deleted: a live comment, not the validator's, of a submission that is not frozen. */
  ghost predicate Deletable(s: Submission, c: Comment) {
    !s.frozen && !s.deleted && c in s.history.comments && c.live && c.author != VALIDATOR
  }

  lemma DeletionBuries(s: Submission, c: Comment)
    requires Coherent(s) && Deletable(s, c)
    ensures Next(s, DeleteComment(c.id)) == Recomputed(s, Buried(s.history, c.id))
  {
    hide Derive, Buried;
    forall d | d in s.history.comments && d.id == c.id ensures d == c { SameRow(s.history, c, d); }
  }

  /**
   What deleting a comment does to the stored sets. While another rejection is live they stay empty;
   deleting the last live rejection brings everyone's roles back; any other deletion moves its author
   at most, and puts the author back into a role only if the comment was a withdrawal.
   */
  lemma DeletionMovesRoles(s: Submission, c: Comment)
    requires Coherent(s) && Deletable(s, c)
    ensures var r, r' := Shown(s.row), Shown(Next(s, DeleteComment(c.id)).row);
            if StillRejected(s.history, c) then r == r' == NOBODY
            else if c.action == Reject then r == NOBODY && r' == RolesOf(s.history)
            else
              && (forall u | u != c.author :: SameFor(r, r', u))
              && (c.action !in Withdrawals ==>
                    && r'.testing <= r.testing && r'.verification <= r.verification
                    && r'.approved <= r.approved && r'.verified <= r.verified)
  {
    hide Derive, EnabledUsers, Buried, NewestFile, StillRejected, Has;
    DeletionBuries(s, c);
    BuriedRejection(s.history, c);
    ShownRoles(s.history);
    ShownRoles(Buried(s.history, c.id));
    if c.action == Reject {
      RejectionMovesNobody(s.history, c);
    } else {
      BuriedMovesOnlyTheAuthor(s.history, c);
    }
  }

  /**
   Exactly when the stored sets are disjoint after a deletion: while another rejection is live, or if,
   going by the comments that remain, everyone has at most one role. If they were disjoint before,
   that comes down to this: for the last live rejection, the sets it had suppressed are disjoint;
   for a withdrawal, its author is left with at most one role; for any other comment, always.
   */
  lemma DeletionKeepsDisjoint(s: Submission, c: Comment)
    requires Coherent(s) && Deletable(s, c)
    ensures var h, r' := s.history, Shown(Next(s, DeleteComment(c.id)).row);
            && (r'.Disjoint() <==> StillRejected(h, c) || forall u :: AloneAfter(h, c, u))
            && (Shown(s.row).Disjoint() && !StillRejected(h, c) ==>
                  (r'.Disjoint() <==>
                     if c.action == Reject then RolesOf(h).Disjoint()
                     else c.action !in Withdrawals || AloneAfter(h, c, c.author)))
  {
    hide Derive, RolesOf, Buried, StillRejected, Has, AloneAfter;
    var h := s.history;
    DeletionBuries(s, c);
    BuriedRejection(h, c);
    ShownRoles(h);
    ShownRoles(Buried(h, c.id));
    forall u ensures RolesOf(Buried(h, c.id)).Alone(u) <==> AloneAfter(h, c, u) { BuriedAlone(h, c, u); }
    DisjointByUser(RolesOf(Buried(h, c.id)));
    if c.action == Reject {
      RejectionMovesNobody(h, c);
    } else {
      BuriedMovesOnlyTheAuthor(h, c);
      if RolesOf(h).Disjoint() { DisjointByAuthor(RolesOf(h), RolesOf(Buried(h, c.id)), c.author); }
    }
  }

  // ---------------------------------------------------------------- deleting a file

  /** The newest live file apart from `f`. */
  ghost predicate NextNewest(files: seq<File>, f: File, g: File) {
    g in files && g.live && g.id != f.id && forall x | x in files && x.live && x.id != f.id :: !FileBefore(g, x)
  }

  lemma ShreddedRow(h: History, id: int, f: File)
    requires f.live
    ensures f in Shredded(h, id).files <==> f in h.files && f.id != id
  {
    if f in h.files && f.id != id {
      var i :| 0 <= i < |h.files| && h.files[i] == f;
      assert Shredded(h, id).files[i] == f;
    }
  }

  lemma SameFile(files: seq<File>, a: File, b: File)
    requires forall i, j | 0 <= i < j < |files| :: files[i].id != files[j].id
    requires a in files && b in files && !FileBefore(a, b) && !FileBefore(b, a)
    ensures a == b
  {
  }

  lemma NewestAfterShredding(h: History, f: File, g: File)
    requires WellFormed(h) && NextNewest(h.files, f, g)
    ensures NewestFile(Shredded(h, f.id).files) == Some(g)
  {
    var files := Shredded(h, f.id).files;
    ShreddedRow(h, f.id, g);
    var n := NewestFile(files).value;
    ShreddedRow(h, f.id, n);
    SameFile(h.files, n, g);
  }

  lemma ShreddedApproved(h: History, f: File, g: File, user: UserId, on: set<Action>)
    requires WellFormed(h) && NextNewest(h.files, f, g) && RequestChanges !in on
    ensures user in EnabledUsers(h.comments, on, {RequestChanges}, After(NewestFile(Shredded(h, f.id).files)))
       <==> Unanswered(h.comments, user, on, {RequestChanges}, After(Some(g)))
  {
    hide Enabled, Shredded, Unanswered;
    NewestAfterShredding(h, f, g);
    EnabledIsUnanswered(h.comments, user, on, {RequestChanges}, After(Some(g)));
  }

  /**
   After the newest file is deleted, the uploader of the next newest is the latest uploader; that
   user is an approver (or verifier) of their own version exactly if nothing is rejected and, in the
   history as it was, one of their approvals (verifications) is later than that file and later than
   all their requests for changes.
   */
  lemma DeletingNewestFile(s: Submission, f: File, g: File)
    requires Coherent(s) && !s.frozen && !s.deleted && LiveFiles(s.history.files) > 1
    requires NewestFile(s.history.files) == Some(f) && NextNewest(s.history.files, f, g)
    ensures var s', rows := Next(s, DeleteFile(f.id)), s.history.comments;
            && s'.LastUploader() == Some(g.uploader)
            && (g.uploader in s'.row.approved <==>
                  !Has(s.history, Reject) && Unanswered(rows, g.uploader, {Approve}, {RequestChanges}, After(Some(g))))
            && (g.uploader in s'.row.verified <==>
                  !Has(s.history, Reject) && Unanswered(rows, g.uploader, {Verify}, {RequestChanges}, After(Some(g))))
  {
    hide EnabledUsers, NewestFile, Unanswered, LiveFiles, LiveActions;
    NewestAfterShredding(s.history, f, g);
    ShreddedApproved(s.history, f, g, g.uploader, {Approve});
    ShreddedApproved(s.history, f, g, g.uploader, {Verify});
    SameActions(s.history, Shredded(s.history, f.id));
  }

  /** With version `g` the newest, and before any suppression, the user has at most one role. */
  ghost predicate AloneOn(h: History, g: File, user: UserId) {
    AtMostOne(user in Testing(h), user in Verification(h),
              Unanswered(h.comments, user, {Approve}, {RequestChanges}, After(Some(g))),
              Unanswered(h.comments, user, {Verify}, {RequestChanges}, After(Some(g))))
  }

  /**
   After the newest file is deleted the stored sets are disjoint exactly while a rejection is live, or
   if no reviewer of the older version, revived with it, has another role.
   */
  lemma FileDeletionKeepsDisjoint(s: Submission, f: File, g: File)
    requires Coherent(s) && !s.frozen && !s.deleted && LiveFiles(s.history.files) > 1
    requires NextNewest(s.history.files, f, g)
    ensures Shown(Next(s, DeleteFile(f.id)).row).Disjoint()
       <==> Has(s.history, Reject) || forall u :: AloneOn(s.history, g, u)
  {
    hide Derive, EnabledUsers, NewestFile, Unanswered, LiveFiles, Has;
    var h, h' := s.history, Shredded(s.history, f.id);
    ShownRoles(h');
    DeletionsAddNothing(h, f.id);
    forall u ensures RolesOf(h').Alone(u) <==> AloneOn(h, g, u) {
      ShreddedApproved(h, f, g, u, {Approve});
      ShreddedApproved(h, f, g, u, {Verify});
    }
    DisjointByUser(RolesOf(h'));
  }

  lemma SameActions(h: History, h': History)
    requires h'.comments == h.comments
    ensures LiveActions(h') == LiveActions(h) && (Reject in LiveActions(h) <==> Has(h, Reject))
  {
    HasIsLive(h);
  }

  /** Deleting any other file changes neither the latest uploader nor the reviewers. */
  lemma DeletingOlderFile(s: Submission, id: int)
    requires Coherent(s) && !s.frozen && !s.deleted && LiveFiles(s.history.files) > 1
    requires NewestFile(s.history.files).Some? && NewestFile(s.history.files).value.id != id
    ensures var s' := Next(s, DeleteFile(id));
            s'.LastUploader() == s.LastUploader() && s'.row.approved == s.row.approved &&
                s'.row.verified == s.row.verified
  {
    hide EnabledUsers, LiveFiles, LiveActions;
    var f := NewestFile(s.history.files).value;
    var files := Shredded(s.history, id).files;
    ShreddedRow(s.history, id, f);
    var n := NewestFile(files).value;
    ShreddedRow(s.history, id, n);
    SameFile(s.history.files, n, f);
    SameActions(s.history, Shredded(s.history, id));
  }

  // ---------------------------------------------------------------- meta edits

  /**
   A meta edit carries the first approval over to its own version. Afterwards the uploader of
   the newest version is among its approvers exactly when the editor is that approver.
   */
  lemma MetaEditOwnApproval(s: Submission, step: Step)
    requires Coherent(s) && step.MetaEdit? && Timed(s, step)
    requires !s.deleted && !s.frozen && MarkAdded !in s.row.actions && s.row.approved != {}
    ensures var s' := Next(s, step);
            s'.LastUploader() == Some(step.uid) && (step.uid in s'.row.approved <==> step.uid == step.approver)
  {
    hide Derive, Versioned, CarriedOver, EnabledUsers, NewestFile, Has;
    MetaEditRoles(s, step);
    StepAdds(s, step);
    ShownRoles(s.history);
    ShownRoles(Next(s, step).history);
    assert step.approver in s.row.approved;
    ApproverIsNotValidator(s, step.approver);
    assert RolesOf(Next(s, step).history).approved == {step.approver};
  }

  lemma ApproverIsNotValidator(s: Submission, approver: UserId)
    requires Coherent(s) && approver in s.row.approved
    ensures approver != VALIDATOR
  {
    assert approver in Approved(s.history);
    assert Ranked(s.history.comments, approver, {Approve}).Some?;
  }

  // ---------------------------------------------------------------- Force steps

  /** The other three roles, which a reviewer who goes through the guard would not hold. */
  function OtherRoles(r: Roles, step: Step): set<UserId>
    requires step.ForceApprove? || step.ForceVerify?
  {
    r.testing + r.verification + if step.ForceApprove? then r.verified else r.approved
  }

  /**
   A Force step skips the guard. Afterwards the stored sets are disjoint exactly while a rejection is
   live, or if they were before and the acting user holds none of the other three roles, or is the
   validator, whose reviews do not count, or there is no version to review.
   */
  lemma ForceKeepsDisjoint(s: Submission, step: Step)
    requires Coherent(s) && Timed(s, step) && !s.deleted && (step.ForceApprove? || step.ForceVerify?)
    ensures var r := Shown(s.row);
            Shown(Next(s, step).row).Disjoint() <==>
              Has(s.history, Reject) ||
              (r.Disjoint() && (step.uid !in OtherRoles(r, step) || step.uid == VALIDATOR ||
                                NewestFile(s.history.files).None?))
  {
    hide Derive, RolesOf, NewestFile, Has, Said;
    var action := if step.ForceApprove? then Approve else Verify;
    var h' := Next(s, step).history;
    assert Timed(s, step) ==> LaterThanFiles(s.history, step.at) && LaterThanComments(s.history, step.at);
    SaidUpdatesRoles(s.history, step.uid, action, step.at);
    SaidAddsAction(s.history, step.uid, action, step.at);
    ShownRoles(s.history);
    ShownRoles(h');
    if step.uid != VALIDATOR && NewestFile(s.history.files).Some? { DisjointOf(RolesOf(s.history), RolesOf(h'), step); }
  }

  lemma DisjointOf(r: Roles, r': Roles, step: Step)
    requires step.ForceApprove? || step.ForceVerify?
    requires r'.testing == r.testing && r'.verification == r.verification
    requires r'.approved == (if step.ForceApprove? then r.approved + {step.uid} else r.approved)
    requires r'.verified == (if step.ForceApprove? then r.verified else r.verified + {step.uid})
    ensures r'.Disjoint() <==> r.Disjoint() && step.uid !in OtherRoles(r, step)
  {
    assert step.uid in {step.uid};
    assert step.uid in (if step.ForceApprove? then r'.approved else r'.verified);
    assert r'.Disjoint() ==> r.Disjoint();
  }

  // ---------------------------------------------------------------- uploads

  /**
   The receiver of full uploads never asks the guard. Whether or not a rejection is live, an upload
   adds a version exactly if the submission is not frozen, and leaves everything alone if it is;
   and while a rejection is live the guard would have refused it.
   */
  lemma UploadIgnoresRejection(s: Submission, step: Step)
    requires Coherent(s) && step.Upload? && Timed(s, step) && !s.deleted
    ensures var s' := Next(s, step);
            && (|s'.history.files| == |s.history.files| + 1 <==> !s.frozen)
            && (!s.frozen ==>
                  s'.LastUploader() == Some(step.uid) && !(Has(s.history, Reject) && !Has(s'.history, Reject)))
            && (s.frozen ==> s' == s)
    ensures Guard(step.uid, UploadFile, s) == (if Has(s.history, Reject) then Some(UploadAfterReject) else None)
  {
    hide Derive, EnabledUsers, Has, Guard, Versioned;
    if !s.frozen {
      UploadRoles(s, step);
      VersionAddsOneFile(s.history, step);
      StepAdds(s, step);
    }
    RejectedActions(s);
    UploadGuard(s, step.uid);
  }

  lemma UploadGuard(s: Submission, uid: UserId)
    ensures Guard(uid, UploadFile, s) == if Reject in s.row.actions then Some(UploadAfterReject) else None
  {
  }

  lemma RejectedActions(s: Submission)
    requires Coherent(s)
    ensures Reject in s.row.actions <==> Has(s.history, Reject)
  {
    HasIsLive(s.history);
  }

  lemma {:induction false} NotedKeepsFiles(h: History, notes: seq<int>)
    ensures Noted(h, notes).files == h.files
  {
    if notes != [] { NotedKeepsFiles(h, notes[..|notes| - 1]); }
  }

  lemma VersionAddsOneFile(h: History, step: Step)
    requires step.Upload?
    ensures |Versioned(h, step.uid, UploadFile, step.tf, step.tc, step.notes, step.tb,
                       step.passed).files| == |h.files| + 1
  {
    NotedKeepsFiles(Said(Stored(h, step.uid, step.tf), step.uid, UploadFile, step.tc), step.notes);
  }
}
