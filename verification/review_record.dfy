/**
 What each step writes down, row by row: the comments and files of a submission's record, the verdict
 shown for its newest version, and the flags that close it (service/siteservice_submissionreceiver.go,
 service/siteservice_comments.go, service/siteservice.go).
 */
module ReviewRecord {
  import opened ReviewHistory
  import opened ReviewRoles
  import opened ReviewMachine
  import opened ReviewRuns
  import opened ReviewLimits
  import opened ReviewApart

  // ---------------------------------------------------------------- rows added

  predicate IsRow(c: Comment, author: UserId, action: Action, at: int) {
    c.live && c.author == author && c.action == action && c.at == at
  }

  /** `h'` has the comments of `h` and then `n` more, each with a larger id than all before it. */
  ghost predicate Appends(h: History, h': History, n: nat) {
    && |h'.comments| == |h.comments| + n && h'.comments[..|h.comments|] == h.comments
    && forall i, j | 0 <= i < j < |h'.comments| && j >= |h.comments| :: h'.comments[i].id < h'.comments[j].id
  }

  function Nth(h: History, h': History, i: nat): Comment
    requires |h.comments| + i < |h'.comments|
  {
    h'.comments[|h.comments| + i]
  }

  lemma AppendsNothing(h: History)
    ensures Appends(h, h, 0)
  {
  }

  lemma SaidAppends(h0: History, h: History, n: nat, author: UserId, action: Action, at: int)
    requires Appends(h0, h, n)
    ensures var h' := Said(h, author, action, at);
            && Appends(h0, h', n + 1) && h'.files == h.files && IsRow(Nth(h0, h', n), author, action, at)
            && forall i | 0 <= i < n :: Nth(h0, h', i) == Nth(h0, h, i)
  {
    assert forall i | 0 <= i < |h.comments| :: h.comments[i] in h.comments;
  }

  lemma PostRecord(s: Submission, step: Step)
    requires step.Post? && Accepts(s, step.uid, step.action, step.message, step.freezer)
    ensures var h, h', action := s.history, Next(s, step).history, step.action;
            var n := if action == Verify then (if s.autofreeze then 3 else 2) else if action == Approve then 2 else 1;
            && h'.files == h.files && Appends(h, h', n) && IsRow(Nth(h, h', 0), step.uid, action, step.t1)
            && (action == Approve ==> IsRow(Nth(h, h', 1), step.uid, UnassignTesting, step.t2 + 1))
            && (action == Verify ==> IsRow(Nth(h, h', 1), step.uid, UnassignVerification, step.t2 + 1))
            && (action == Verify && s.autofreeze ==> IsRow(Nth(h, h', 2), SYSTEM, SystemNote, step.t3 + 2))
  {
    hide Said, Appends, Derive, Guard, Accepts;
    AcceptedIsLive(s, step.uid, step.action, step.message, step.freezer);
    var h, said := s.history, Said(s.history, step.uid, step.action, step.t1);
    AppendsNothing(h);
    SaidAppends(h, h, 0, step.uid, step.action, step.t1);
    if step.action == Approve {
      SaidAppends(h, said, 1, step.uid, UnassignTesting, step.t2 + 1);
    } else if step.action == Verify {
      SaidAppends(h, said, 1, step.uid, UnassignVerification, step.t2 + 1);
      SaidAppends(h, Said(said, step.uid, UnassignVerification, step.t2 + 1), 2, SYSTEM, SystemNote, step.t3 + 2);
    }
    AppendsCount(h, Next(s, step).history);
  }

  lemma AppendsCount(h: History, h': History)
    ensures forall n: nat | Appends(h, h', n) :: |h'.comments| == |h.comments| + n
  {
  }

  lemma {:induction false} NotedAppends(h0: History, h: History, n: nat, notes: seq<int>)
    requires Appends(h0, h, n)
    ensures var h' := Noted(h, notes);
            && Appends(h0, h', n + |notes|) && h'.files == h.files
            && (forall i | 0 <= i < |notes| :: IsRow(Nth(h0, h', n + i), SYSTEM, SystemNote, notes[i] + 2))
            && forall i | 0 <= i < n :: Nth(h0, h', i) == Nth(h0, h, i)
  {
    hide Said;
    if notes != [] {
      var rest := notes[..|notes| - 1];
      NotedAppends(h0, h, n, rest);
      SaidAppends(h0, Noted(h, rest), n + |rest|, SYSTEM, SystemNote, notes[|notes| - 1] + 2);
      forall i | 0 <= i < |rest| ensures IsRow(Nth(h0, Noted(h, notes), n + i), SYSTEM, SystemNote, notes[i] + 2) {
        assert rest[i] == notes[i];
        assert Nth(h0, Noted(h, notes), n + i) == Nth(h0, Noted(h, rest), n + i);
      }
    }
  }

  /** The rows of one version: the file, its comment, the notes in their order, and the verdict last. */
  ghost predicate VersionRecord(h: History, h': History, uid: UserId, action: Action, tf: int, tc: int, notes: seq<int>,
                                tb: int, passed: bool)
  {
    var n := |notes|;
    && |h'.files| == |h.files| + 1 && h'.files[..|h.files|] == h.files
    && (forall f | f in h.files :: f.id < h'.files[|h.files|].id)
    && h'.files[|h.files|].uploader == uid && h'.files[|h.files|].at == tf && h'.files[|h.files|].live
    && |h'.comments| >= |h.comments| + n + 2 && IsRow(Nth(h, h', 0), uid, action, tc)
    && (forall i | 0 <= i < n :: IsRow(Nth(h, h', 1 + i), SYSTEM, SystemNote, notes[i] + 2))
    && IsRow(Nth(h, h', n + 1), VALIDATOR, if passed then Approve else RequestChanges, tb + 1)
  }

  lemma VersionedRecord(h: History, uid: UserId, action: Action, tf: int, tc: int, notes: seq<int>, tb: int,
                        passed: bool)
    ensures var h' := Versioned(h, uid, action, tf, tc, notes, tb, passed);
            Appends(h, h', |notes| + 2) && VersionRecord(h, h', uid, action, tf, tc, notes, tb, passed)
  {
    hide Said, Appends, Noted, IsRow;
    var stored := Stored(h, uid, tf);
    assert Appends(h, stored, 0) by { StoredAppends(h, uid, tf); }
    SaidAppends(h, stored, 0, uid, action, tc);
    var said := Said(stored, uid, action, tc);
    NotedAppends(h, said, 1, notes);
    SaidAppends(h, Noted(said, notes), 1 + |notes|, VALIDATOR, if passed then Approve else RequestChanges, tb + 1);
    AppendsCount(h, Versioned(h, uid, action, tf, tc, notes, tb, passed));
    AppendsCount(h, Noted(said, notes));
    AppendsCount(h, said);
    AppendsCount(h, stored);
  }

  lemma StoredAppends(h: History, uid: UserId, tf: int)
    ensures Appends(h, Stored(h, uid, tf), 0)
  {
  }

  lemma UploadRecord(s: Submission, step: Step)
    requires step.Upload? && !s.deleted && !s.frozen
    ensures var h, h' := s.history, Next(s, step).history;
            && Appends(h, h', |step.notes| + 2)
            && VersionRecord(h, h', step.uid, UploadFile, step.tf, step.tc, step.notes, step.tb, step.passed)
  {
    hide Versioned, Derive, Appends, VersionRecord;
    VersionedRecord(s.history, step.uid, UploadFile, step.tf, step.tc, step.notes, step.tb, step.passed);
  }

  /** A meta edit adds, behind its version, the approval and then the verification it carries over. */
  lemma MetaEditRecord(s: Submission, step: Step)
    requires step.MetaEdit? && !s.deleted && !s.frozen && MarkAdded !in s.row.actions
    ensures var h, h', n := s.history, Next(s, step).history, |step.notes| + 2;
            && VersionRecord(h, h', step.uid, EditMeta, step.tf, step.tc, step.notes, step.tb, step.passed)
            && Appends(h, h', if s.row.approved == {} then n else if s.row.verified == {} then n + 1 else n + 2)
            && (s.row.approved != {} ==> |h'.comments| > |h.comments| + n
                                         && IsRow(Nth(h, h', n), step.approver, Approve, step.ta + 3))
            && (s.row.approved != {} && s.row.verified != {} ==>
                  |h'.comments| > |h.comments| + n + 1
                  && IsRow(Nth(h, h', n + 1), step.verifier, Verify, step.tv + 4))
  {
    hide Versioned, Said, Derive, Appends, IsRow;
    var h, n := s.history, |step.notes| + 2;
    var h1 := Versioned(h, step.uid, EditMeta, step.tf, step.tc, step.notes, step.tb, step.passed);
    VersionedRecord(h, step.uid, EditMeta, step.tf, step.tc, step.notes, step.tb, step.passed);
    SaidAppends(h, h1, n, step.approver, Approve, step.ta + 3);
    var h2 := Said(h1, step.approver, Approve, step.ta + 3);
    SaidAppends(h, h2, n + 1, step.verifier, Verify, step.tv + 4);
    AppendsCount(h, h1);
    AppendsCount(h, h2);
    AppendsCount(h, Next(s, step).history);
  }

  /** The bot override and the Force steps write one row each. */
  lemma SingleRecord(s: Submission, step: Step)
    requires !s.deleted && ((step.OverrideBot? && !s.frozen) || step.ForceApprove? || step.ForceVerify?)
    ensures var h, h' := s.history, Next(s, step).history;
            && h'.files == h.files && Appends(h, h', 1)
            && match step
               case OverrideBot(at) => IsRow(Nth(h, h', 0), VALIDATOR, Approve, at)
               case ForceApprove(uid, at) => IsRow(Nth(h, h', 0), uid, Approve, at)
               case ForceVerify(uid, at) => IsRow(Nth(h, h', 0), uid, Verify, at)
               case _ => true
  {
    hide Said, Derive;
    AppendsNothing(s.history);
    match step
    case OverrideBot(at) => SaidAppends(s.history, s.history, 0, VALIDATOR, Approve, at);
    case ForceApprove(uid, at) => SaidAppends(s.history, s.history, 0, uid, Approve, at);
    case ForceVerify(uid, at) => SaidAppends(s.history, s.history, 0, uid, Verify, at);
    case _ =>
  }

  /** Deletions remove no row: they mark one comment, one file, or everything, and touch nothing else. */
  lemma DeletionRecord(s: Submission, step: Step)
    requires Coherent(s) && !s.deleted && !s.frozen
    ensures var h, h' := s.history, Next(s, step).history;
            match step
            case DeleteComment(id) =>
              && h'.files == h.files && |h'.comments| == |h.comments|
              && forall i | 0 <= i < |h.comments| ::
                   h'.comments[i] == if h.comments[i].id == id && h.comments[i].author != VALIDATOR
                                     then h.comments[i].(live := false) else h.comments[i]
            case DeleteFile(id) =>
              && h'.comments == h.comments && |h'.files| == |h.files|
              && forall i | 0 <= i < |h.files| ::
                   h'.files[i] == if h.files[i].id == id && LiveFiles(h.files) > 1
                                  then h.files[i].(live := false) else h.files[i]
            case DeleteSubmission =>
              && |h'.files| == |h.files| && |h'.comments| == |h.comments| && Next(s, step).deleted
              && (forall i | 0 <= i < |h.files| :: h'.files[i] == h.files[i].(live := false))
              && forall i | 0 <= i < |h.comments| :: h'.comments[i] == h.comments[i].(live := false)
            case _ => true
  {
    hide Derive, LiveFiles;
    var h := s.history;
    if step.DeleteComment? {
      if c :| c in h.comments && c.id == step.id {
        forall d | d in h.comments && d.id == step.id ensures d == c { SameRow(h, c, d); }
      }
      assert forall i | 0 <= i < |h.comments| :: h.comments[i] in h.comments;
    }
  }

  // ---------------------------------------------------------------- the verdict shown

  ghost predicate VerdictsBefore(h: History, at: int) {
    forall c | c in h.comments && c.author == VALIDATOR :: c.at < at
  }

  /** A comment of the validator's, newer than its others, is the verdict; a comment of anybody else's is not. */
  lemma SaidBot(h: History, author: UserId, action: Action, at: int)
    requires author == VALIDATOR ==> VerdictsBefore(h, at)
    ensures BotAction(Said(h, author, action, at).comments)
         == if author == VALIDATOR then Some(action) else BotAction(h.comments)
    ensures forall t | VerdictsBefore(h, t) && (author == VALIDATOR ==> at < t) ::
              VerdictsBefore(Said(h, author, action, at), t)
  {
    var c := Comment(FreshCommentId(h.comments), author, action, at, true);
    LatestWithOneMore(h.comments, c, (x: Comment) => x.live && x.author == VALIDATOR);
  }

  lemma {:induction false} NotedVerdicts(h: History, notes: seq<int>, t: int)
    requires VerdictsBefore(h, t)
    ensures VerdictsBefore(Noted(h, notes), t)
  {
    hide Said, VerdictsBefore;
    if notes != [] {
      NotedVerdicts(h, notes[..|notes| - 1], t);
      SaidBot(Noted(h, notes[..|notes| - 1]), SYSTEM, SystemNote, notes[|notes| - 1] + 2);
    }
  }

  lemma VersionedBot(h: History, uid: UserId, action: Action, tf: int, tc: int, notes: seq<int>, tb: int, passed: bool)
    requires LaterThanComments(h, tf) && tf <= tc <= tb
    ensures BotAction(Versioned(h, uid, action, tf, tc, notes, tb, passed).comments)
         == Some(if passed then Approve else RequestChanges)
  {
    hide Said, Noted, BotAction;
    var stored := Stored(h, uid, tf);
    assert VerdictsBefore(stored, tf) && VerdictsBefore(stored, tb + 1);
    hide VerdictsBefore;
    SaidBot(stored, uid, action, tc);
    var said := Said(stored, uid, action, tc);
    NotedVerdicts(said, notes, tb + 1);
    SaidBot(Noted(said, notes), VALIDATOR, if passed then Approve else RequestChanges, tb + 1);
  }

  lemma CarriedBot(h: History, row: Row, approver: UserId, verifier: UserId, ta: int, tv: int)
    requires (row.approved != {} ==> approver != VALIDATOR) && (row.verified != {} ==> verifier != VALIDATOR)
    ensures BotAction(CarriedOver(h, row, approver, verifier, ta, tv).comments) == BotAction(h.comments)
  {
    hide Said, BotAction;
    if row.approved != {} {
      SaidBot(h, approver, Approve, ta + 3);
      if row.verified != {} { SaidBot(Said(h, approver, Approve, ta + 3), verifier, Verify, tv + 4); }
    }
  }

  lemma RowBot(s: Submission)
    requires s.row == Derive(s.history)
    ensures s.row.bot == BotAction(s.history.comments)
  {
  }

  lemma ReviewersNotBot(s: Submission, step: Step)
    requires Coherent(s) && step.MetaEdit? && Timed(s, step)
    ensures s.row.approved != {} ==> step.approver != VALIDATOR
    ensures s.row.verified != {} ==> step.verifier != VALIDATOR
  {
    hide WellFormed, NewestFile, OldestFile, BotAction;
    if s.row.approved != {} { ApproverIsNotValidator(s, step.approver); }
    if s.row.verified != {} {
      assert step.verifier in Verified(s.history);
      assert Ranked(s.history.comments, step.verifier, {Verify}).Some?;
    }
  }

  /**
   After a new version the row shows the verdict of its validation: request-changes if anything was
   wrong with it and approve if nothing was. After an override it shows approve. A post or a Force step
   by anybody but the validator, and a freeze, leave the verdict as it was.
   */
  lemma VerdictShown(s: Submission, step: Step)
    requires Coherent(s) && Timed(s, step) && !s.deleted
    ensures var bot := Next(s, step).row.bot;
            && (step.Upload? && !s.frozen ==> bot == Some(if step.passed then Approve else RequestChanges))
            && (step.MetaEdit? && !s.frozen && MarkAdded !in s.row.actions ==>
                  bot == Some(if step.passed then Approve else RequestChanges))
            && (step.OverrideBot? && !s.frozen ==> bot == Some(Approve))
            && (step.Post? && step.uid != VALIDATOR ==> bot == s.row.bot)
            && ((step.ForceApprove? || step.ForceVerify?) && step.uid != VALIDATOR ==> bot == s.row.bot)
            && (step.SetFrozen? || (s.frozen && (step.Upload? || step.MetaEdit? || step.OverrideBot?)) ==>
                  bot == s.row.bot)
  {
    hide Derive, Versioned, CarriedOver, Said, BotAction, Guard, Accepts, WellFormed;
    RowIsDerived(s, step);
    RowBot(s);
    RowBot(Next(s, step));
    var h := s.history;
    match step
    case Upload(uid, tf, tc, notes, tb, passed, _) => VersionedBot(h, uid, UploadFile, tf, tc, notes, tb, passed);
    case MetaEdit(uid, tf, tc, notes, tb, passed, _, approver, verifier, ta, tv) =>
      VersionedBot(h, uid, EditMeta, tf, tc, notes, tb, passed);
      ReviewersNotBot(s, step);
      CarriedBot(Versioned(h, uid, EditMeta, tf, tc, notes, tb, passed), s.row, approver, verifier, ta, tv);
    case OverrideBot(at) => assert VerdictsBefore(h, at); SaidBot(h, VALIDATOR, Approve, at);
    case ForceApprove(uid, at) => if uid != VALIDATOR { SaidBot(h, uid, Approve, at); }
    case ForceVerify(uid, at) => if uid != VALIDATOR { SaidBot(h, uid, Verify, at); }
    case Post(uid, action, _, _, t1, t2, t3) =>
      if uid != VALIDATOR { PostedBot(h, uid, action, s.autofreeze, t1, t2, t3); }
    case _ =>
  }

  lemma PostedBot(h: History, uid: UserId, action: Action, autofreeze: bool, t1: int, t2: int, t3: int)
    requires uid != VALIDATOR
    ensures BotAction(Posted(h, uid, action, autofreeze, t1, t2, t3).comments) == BotAction(h.comments)
  {
    hide Said, BotAction;
    SaidBot(h, uid, action, t1);
    var said := Said(h, uid, action, t1);
    SaidBot(said, uid, UnassignTesting, t2 + 1);
    SaidBot(said, uid, UnassignVerification, t2 + 1);
    SaidBot(Said(said, uid, UnassignVerification, t2 + 1), SYSTEM, SystemNote, t3 + 2);
  }

  // ---------------------------------------------------------------- frozen and deleted

  /** The flags: an accepted verification freezes a version marked for it, and a new version brings its mark. */
  lemma FlagsFollow(s: Submission, step: Step)
    requires !s.deleted
    ensures var s' := Next(s, step);
            var versioned := (step.Upload? || (step.MetaEdit? && MarkAdded !in s.row.actions)) && !s.frozen;
            var verified := step.Post? && step.action == Verify
                            && Accepts(s, step.uid, Verify, step.message, step.freezer);
            && (s'.frozen <==> if step.SetFrozen? then step.frozen else s.frozen || (verified && s.autofreeze))
            && (s'.autofreeze <==> if versioned then step.freezes else s.autofreeze)
            && (s'.deleted <==> step.DeleteSubmission? && !s.frozen)
  {
    hide Derive, Versioned, Posted, Guard;
  }

  /** While it is frozen only freezers post, and nothing else but Force steps and thawing gets through. */
  lemma FrozenRefuses(s: Submission, step: Step)
    requires s.frozen
    requires step.Upload? || step.MetaEdit? || step.OverrideBot? || step.DeleteComment? || step.DeleteFile?
             || step.DeleteSubmission? || (step.Post? && !step.freezer)
    ensures Next(s, step) == s
  {
  }

  /** From freezing until thawing no version is added or deleted. */
  lemma {:induction false} FrozenUntilThawed(trace: seq<Submission>, steps: seq<Step>, i: nat, j: nat)
    requires Run(trace, steps) && i <= j < |trace| && trace[i].frozen && !trace[i].deleted
    requires forall k | i <= k < j :: steps[k] != SetFrozen(false)
    ensures trace[j].frozen && !trace[j].deleted && trace[j].history.files == trace[i].history.files
    decreases j
  {
    if i < j {
      hide Next, Timed, Init;
      FrozenUntilThawed(trace, steps, i, j - 1);
      assert trace[j] == Next(trace[j - 1], steps[j - 1]);
      FrozenStays(trace[j - 1], steps[j - 1]);
    }
  }

  lemma FrozenStays(s: Submission, step: Step)
    requires s.frozen && !s.deleted && step != SetFrozen(false)
    ensures var s' := Next(s, step); s'.frozen && !s'.deleted && s'.history.files == s.history.files
  {
    hide Derive, Guard;
  }

  /** Verifying a version marked for freezing makes it final. */
  lemma VerificationFreezes(s: Submission, step: Step, later: Step)
    requires step.Post? && step.action == Verify && Accepts(s, step.uid, Verify, step.message, step.freezer)
    requires s.autofreeze
    requires later.Upload? || later.MetaEdit? || later.DeleteFile?
    ensures Next(s, step).frozen && Next(Next(s, step), later) == Next(s, step)
  {
    hide Next, Accepts;
    AcceptedIsLive(s, step.uid, Verify, step.message, step.freezer);
    FlagsFollow(s, step);
    FrozenRefuses(Next(s, step), later);
  }

  lemma AcceptedIsLive(s: Submission, uid: UserId, action: Action, message: bool, freezer: bool)
    requires Accepts(s, uid, action, message, freezer)
    ensures !s.deleted
  {
  }

  lemma DeletedStays(s: Submission, step: Step)
    ensures s.deleted ==> Next(s, step) == s
  {
  }

  /** Deletion is final. */
  lemma {:induction false} DeletedIsFinal(trace: seq<Submission>, steps: seq<Step>, i: nat, j: nat)
    requires Run(trace, steps) && i <= j < |trace| && trace[i].deleted
    ensures trace[j] == trace[i]
    decreases j
  {
    if i < j {
      DeletedIsFinal(trace, steps, i, j - 1);
      assert trace[j] == Next(trace[j - 1], steps[j - 1]);
    }
  }

  ghost predicate HasVersion(s: Submission) {
    NewestFile(s.history.files).Some?
  }

  /** The last live version cannot be deleted: once there is one there always is, until the submission is deleted. */
  lemma {:induction false} SomeVersionStays(trace: seq<Submission>, steps: seq<Step>, i: nat, j: nat)
    requires Run(trace, steps) && i <= j < |trace| && HasVersion(trace[i]) && !trace[j].deleted
    ensures HasVersion(trace[j])
    decreases j
  {
    hide Next, Timed, Init, Coherent, HasVersion;
    if i < j {
      assert trace[j] == Next(trace[j - 1], steps[j - 1]);
      DeletedStays(trace[j - 1], steps[j - 1]);
      SomeVersionStays(trace, steps, i, j - 1);
      RunIsCoherent(trace, steps, j - 1);
      StepKeepsVersion(trace[j - 1], steps[j - 1]);
    }
  }

  lemma StepKeepsVersion(s: Submission, step: Step)
    requires Coherent(s) && HasVersion(s) && !Next(s, step).deleted
    ensures HasVersion(Next(s, step))
  {
    hide Derive, LiveFiles, WellFormed, Guard, Appends, IsRow, Next, NewestFile;
    if step.DeleteFile? && !s.frozen && !s.deleted && LiveFiles(s.history.files) > 1 {
      FileDeletionKeepsVersion(s, step.id);
    } else if step.Upload? && !s.frozen && !s.deleted {
      UploadRecord(s, step);
      VersionIsLive(s.history, Next(s, step).history);
    } else if step.MetaEdit? && !s.frozen && !s.deleted && MarkAdded !in s.row.actions {
      MetaEditRecord(s, step);
      VersionIsLive(s.history, Next(s, step).history);
    } else {
      OthersKeepFiles(s, step);
    }
  }

  lemma FileDeletionKeepsVersion(s: Submission, id: int)
    requires Coherent(s) && !s.frozen && !s.deleted && LiveFiles(s.history.files) > 1
    ensures HasVersion(Next(s, DeleteFile(id)))
  {
    hide Derive, LiveFiles, WellFormed;
    var g := SomeNextNewest(s.history, File(id, 0, 0, true));
    ShreddedRow(s.history, id, g);
  }

  lemma OthersKeepFiles(s: Submission, step: Step)
    requires !Next(s, step).deleted
    requires !(step.DeleteFile? && !s.frozen && !s.deleted && LiveFiles(s.history.files) > 1)
    requires !(step.Upload? && !s.frozen && !s.deleted)
    requires !(step.MetaEdit? && !s.frozen && !s.deleted && MarkAdded !in s.row.actions)
    ensures Next(s, step).history.files == s.history.files
  {
    hide Derive, Guard, LiveFiles;
  }

  lemma VersionIsLive(h: History, h': History)
    requires |h'.files| == |h.files| + 1 && h'.files[|h.files|].live
    ensures NewestFile(h'.files).Some?
  {
    assert h'.files[|h.files|] in h'.files;
  }

  /** Whatever is refused changes nothing at all. */
  lemma RefusedLeaves(s: Submission, step: Step)
    requires match step
             case Post(uid, action, message, freezer, _, _, _) => !Accepts(s, uid, action, message, freezer)
             case MetaEdit(_, _, _, _, _, _, _, _, _, _, _) => s.deleted || s.frozen || MarkAdded in s.row.actions
             case DeleteComment(id) =>
               || s.deleted || s.frozen
               || exists c :: c in s.history.comments && c.id == id && (c.author == VALIDATOR || !c.live)
             case DeleteFile(_) => s.deleted || s.frozen || LiveFiles(s.history.files) <= 1
             case ForceApprove(_, _) => s.deleted
             case ForceVerify(_, _) => s.deleted
             case SetFrozen(_) => s.deleted
             case _ => s.deleted || s.frozen
    ensures Next(s, step) == s
  {
    hide Accepts, LiveFiles;
  }

  // ---------------------------------------------------------------- reasons

  /** Every reason the guard gives is true. */
  lemma RefusalIsTrue(uid: UserId, action: Action, s: Submission)
    requires Guard(uid, action, s).Some?
    ensures var r := s.row;
            var tests, verifies := action in {AssignTesting, Approve}, action in {AssignVerification, Verify};
            match Guard(uid, action, s).value
            case ReviewClosed => MarkAdded in r.actions
            case OwnVersion => s.LastUploader() == Some(uid)
            case AlreadyAssigned =>
              (action == AssignTesting && uid in r.testing) || (action == AssignVerification && uid in r.verification)
            case NotAssigned =>
              || (action in {UnassignTesting, Approve} && uid !in r.testing)
              || (action in {UnassignVerification, Verify} && uid !in r.verification)
            case AlreadyReviewed => (tests && uid in r.approved) || (verifies && uid in r.verified)
            case AlreadyAdded => action == MarkAdded && MarkAdded in r.actions
            case OtherAssignment =>
              (action == AssignTesting && uid in r.verification) || (action == AssignVerification && uid in r.testing)
            case OtherReview => (tests && uid in r.verified) || (verifies && uid in r.approved)
            case NotYetApproved => verifies && r.approved == {}
            case NotYetVerified => action == MarkAdded && r.verified == {}
            case AlreadyRejected => action == Reject && Reject in r.actions
            case UploadAfterReject => action == UploadFile && Reject in r.actions
  {
  }
}
