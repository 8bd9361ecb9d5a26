/**
 The review of one submission as a state machine: the guard of
 service/comments_action_validator.go, every writer of the submission's history, and the
 properties that hold along whole runs of them.
 */
module ReviewMachine {
  import opened ReviewHistory
  import opened ReviewRoles

  /** What the guard reads: the stored row joined with the uploader of the newest file. */
  datatype Submission = Submission(history: History, row: Row, frozen: bool, deleted: bool, autofreeze: bool) {
    function LastUploader(): Option<UserId> {
      var f := NewestFile(history.files);
      if f.Some? then Some(f.value.uploader) else None
    }
  }

  // ---------------------------------------------------------------- the guard

  datatype Refusal =
    | ReviewClosed | OwnVersion | AlreadyAssigned | NotAssigned | AlreadyReviewed | AlreadyAdded
    | OtherAssignment | OtherReview | NotYetApproved | NotYetVerified | AlreadyRejected | UploadAfterReject

  const ReviewActions: set<Action> :=
    {AssignTesting, UnassignTesting, AssignVerification, UnassignVerification, Approve, Verify, RequestChanges, Reject}

  /** isActionValidForSubmission, check by check. */
  function Guard(uid: UserId, action: Action, s: Submission): Option<Refusal> {
    var row := s.row;
    var own := s.LastUploader() == Some(uid);
    if MarkAdded in row.actions && action in ReviewActions then Some(ReviewClosed)
    else if own && action in {AssignTesting, AssignVerification, Approve, RequestChanges, Verify} then Some(OwnVersion)
    else if action == AssignTesting && uid in row.testing then Some(AlreadyAssigned)
    else if action == UnassignTesting && uid !in row.testing then Some(NotAssigned)
    else if action == AssignVerification && uid in row.verification then Some(AlreadyAssigned)
    else if action == UnassignVerification && uid !in row.verification then Some(NotAssigned)
    else if action == Approve && uid in row.approved then Some(AlreadyReviewed)
    else if action == Verify && uid in row.verified then Some(AlreadyReviewed)
    else if action == MarkAdded && MarkAdded in row.actions then Some(AlreadyAdded)
    else if action == AssignTesting && uid in row.verification then Some(OtherAssignment)
    else if action == AssignVerification && uid in row.testing then Some(OtherAssignment)
    else if (action == AssignTesting || action == Approve) && uid in row.verified then Some(OtherReview)
    else if (action == AssignVerification || action == Verify) && uid in row.approved then Some(OtherReview)
    else if action == Approve && uid !in row.testing then Some(NotAssigned)
    else if action == Verify && uid !in row.verification then Some(NotAssigned)
    else if (action == AssignVerification || action == Verify) && row.approved == {} then Some(NotYetApproved)
    else if action == AssignTesting && uid in row.approved then Some(AlreadyReviewed)
    else if action == AssignVerification && uid in row.verified then Some(AlreadyReviewed)
    else if action == MarkAdded && row.verified == {} then Some(NotYetVerified)
    else if action == Reject && Reject in row.actions then Some(AlreadyRejected)
    else if action == UploadFile && Reject in row.actions then Some(UploadAfterReject)
    else None
  }

  /** What each action takes, action by action: the rules the checks above are there to enforce. */
  predicate Entitled(uid: UserId, action: Action, s: Submission) {
    var row := s.row;
    var open := MarkAdded !in row.actions;
    var own := s.LastUploader() == Some(uid);
    var reviewed := uid in row.approved + row.verified;
    match action
    case AssignTesting => open && !own && !reviewed && uid !in row.testing + row.verification
    case UnassignTesting => open && uid in row.testing
    case Approve => open && !own && !reviewed && uid in row.testing
    case AssignVerification => open && !own && !reviewed && uid !in row.testing + row.verification && row.approved != {}
    case UnassignVerification => open && uid in row.verification
    case Verify => open && !own && !reviewed && uid in row.verification && row.approved != {}
    case RequestChanges => open && !own
    case Reject => open && Reject !in row.actions
    case MarkAdded => open && row.verified != {}
    case UploadFile => Reject !in row.actions
    case _ => true
  }

  lemma GuardIsEntitlement(uid: UserId, action: Action, s: Submission)
    ensures Guard(uid, action, s).None? <==> Entitled(uid, action, s)
  {
  }

  /** GetAllowedActions: what a user may post. */
  const AllowedActions: set<Action> :=
    {Remark, Approve, RequestChanges, MarkAdded, UploadFile, Verify, AssignTesting, UnassignTesting,
     AssignVerification, UnassignVerification, Reject}

  const MessageActions: set<Action> := {Remark, RequestChanges, Reject}

  predicate Accepts(s: Submission, uid: UserId, action: Action, message: bool, freezer: bool) {
    && !s.deleted
    && action in AllowedActions
    && (action in MessageActions ==> message)
    && (s.frozen ==> freezer)
    && Guard(uid, action, s).None?
  }

  // ---------------------------------------------------------------- the writers

  /** ReceiveComments for one submission: the action, the automatic unassignment, the autofreeze note. */
  function Posted(h: History, uid: UserId, action: Action, autofreeze: bool, t1: int, t2: int, t3: int): History {
    var said := Said(h, uid, action, t1);
    if action == Approve then Said(said, uid, UnassignTesting, t2 + 1)
    else if action == Verify then
      var unassigned := Said(said, uid, UnassignVerification, t2 + 1);
      if autofreeze then Said(unassigned, SYSTEM, SystemNote, t3 + 2) else unassigned
    else said
  }

  function Noted(h: History, notes: seq<int>): History {
    if notes == [] then h else Said(Noted(h, notes[..|notes| - 1]), SYSTEM, SystemNote, notes[|notes| - 1] + 2)
  }

  /** The rows a new version brings: the file, its comment, system notes, and the validator's verdict. */
  function Versioned(h: History, uid: UserId, action: Action, tf: int, tc: int, notes: seq<int>, tb: int,
                     passed: bool): History {
    var said := Said(Stored(h, uid, tf), uid, action, tc);
    Said(Noted(said, notes), VALIDATOR, if passed then Approve else RequestChanges, tb + 1)
  }

  /** The carry-over of a meta edit: the first approver, and then also the first verifier. */
  function CarriedOver(h: History, row: Row, approver: UserId, verifier: UserId, ta: int, tv: int): History {
    if row.approved == {} then h
    else
      var approved := Said(h, approver, Approve, ta + 3);
      if row.verified == {} then approved else Said(approved, verifier, Verify, tv + 4)
  }

  function Buried(h: History, id: int): History {
    h.(comments := seq(|h.comments|, i requires 0 <= i < |h.comments| =>
      if h.comments[i].id == id then h.comments[i].(live := false) else h.comments[i]))
  }

  function Shredded(h: History, id: int): History {
    h.(files := seq(|h.files|, i requires 0 <= i < |h.files| =>
      if h.files[i].id == id then h.files[i].(live := false) else h.files[i]))
  }

  function Erased(h: History): History {
    History(seq(|h.files|, i requires 0 <= i < |h.files| => h.files[i].(live := false)),
            seq(|h.comments|, i requires 0 <= i < |h.comments| => h.comments[i].(live := false)))
  }

  function LiveFiles(files: seq<File>): nat {
    if files == [] then 0 else LiveFiles(files[..|files| - 1]) + if files[|files| - 1].live then 1 else 0
  }

  datatype Step =
    | Post(uid: UserId, action: Action, message: bool, freezer: bool, t1: int, t2: int, t3: int)
    | Upload(uid: UserId, tf: int, tc: int, notes: seq<int>, tb: int, passed: bool, freezes: bool)
    | MetaEdit(uid: UserId, tf: int, tc: int, notes: seq<int>, tb: int, passed: bool, freezes: bool,
               approver: UserId, verifier: UserId, ta: int, tv: int)
    | OverrideBot(at: int)
    | ForceApprove(uid: UserId, at: int)
    | ForceVerify(uid: UserId, at: int)
    | DeleteComment(id: int)
    | DeleteFile(id: int)
    | DeleteSubmission
    | SetFrozen(frozen: bool)

  /** Clock readings are later than every stored timestamp and do not go back within a transaction. */
  ghost predicate Timed(s: Submission, step: Step) {
    match step
    case Post(_, _, _, _, t1, t2, t3) => LaterThanComments(s.history, t1) && LaterThanFiles(s.history, t1) &&
        t1 <= t2 <= t3
    case Upload(_, tf, tc, notes, tb, _, _) =>
      && LaterThanComments(s.history, tf) && LaterThanFiles(s.history, tf)
      && tf <= tc <= tb && (forall n | n in notes :: tc <= n <= tb)
    case MetaEdit(_, tf, tc, notes, tb, _, _, approver, verifier, ta, tv) =>
      && LaterThanComments(s.history, tf) && LaterThanFiles(s.history, tf)
      && tf <= tc <= tb <= ta <= tv && (forall n | n in notes :: tc <= n <= tb)
      && (s.row.approved != {} ==> approver in s.row.approved)
      && (s.row.verified != {} ==> verifier in s.row.verified)
    case OverrideBot(at) => LaterThanComments(s.history, at) && LaterThanFiles(s.history, at)
    case ForceApprove(_, at) => LaterThanComments(s.history, at) && LaterThanFiles(s.history, at)
    case ForceVerify(_, at) => LaterThanComments(s.history, at) && LaterThanFiles(s.history, at)
    case _ => true
  }

  function Recomputed(s: Submission, h: History): Submission {
    s.(history := h, row := Derive(h))
  }

  /** One committed transaction; a refused request leaves everything as it was. */
  function Next(s: Submission, step: Step): Submission {
    if s.deleted then s
    else
      match step
      case Post(uid, action, message, freezer, t1, t2, t3) =>
        if !Accepts(s, uid, action, message, freezer) then s
        else
          var s' := Recomputed(s, Posted(s.history, uid, action, s.autofreeze, t1, t2, t3));
          if action == Verify && s.autofreeze then s'.(frozen := true) else s'
      case Upload(uid, tf, tc, notes, tb, passed, freezes) =>
        if s.frozen then s
        else Recomputed(s, Versioned(s.history, uid, UploadFile, tf, tc, notes, tb, passed)).(autofreeze := freezes)
      case MetaEdit(uid, tf, tc, notes, tb, passed, freezes, approver, verifier, ta, tv) =>
        if s.frozen || MarkAdded in s.row.actions then s
        else
          var h := Versioned(s.history, uid, EditMeta, tf, tc, notes, tb, passed);
          Recomputed(s, CarriedOver(h, s.row, approver, verifier, ta, tv)).(autofreeze := freezes)
      case OverrideBot(at) => if s.frozen then s else Recomputed(s, Said(s.history, VALIDATOR, Approve, at))
      case ForceApprove(uid, at) => Recomputed(s, Said(s.history, uid, Approve, at))
      case ForceVerify(uid, at) => Recomputed(s, Said(s.history, uid, Verify, at))
      case DeleteComment(id) =>
        if s.frozen || (exists c | c in s.history.comments :: c.id == id && (!c.live || c.author == VALIDATOR)) then s
        else Recomputed(s, Buried(s.history, id))
      case DeleteFile(id) =>
        if s.frozen || LiveFiles(s.history.files) <= 1 then s else Recomputed(s, Shredded(s.history, id))
      case DeleteSubmission => if s.frozen then s else Recomputed(s, Erased(s.history)).(deleted := true)
      case SetFrozen(frozen) => s.(frozen := frozen)
  }

  ghost predicate Init(s: Submission) {
    s == Submission(History([], []), Derive(History([], [])), false, false, s.autofreeze)
  }

  ghost predicate Run(trace: seq<Submission>, steps: seq<Step>) {
    && |trace| == |steps| + 1 && Init(trace[0])
    && forall i | 0 <= i < |steps| :: Timed(trace[i], steps[i]) && trace[i + 1] == Next(trace[i], steps[i])
  }

  /** No deletion and no Force step. */
  predicate Regular(step: Step) {
    step.Post? || step.Upload? || step.MetaEdit? || step.OverrideBot? || step.SetFrozen?
  }

  lemma RowIsDerived(s: Submission, step: Step)
    requires s.row == Derive(s.history)
    ensures Next(s, step).row == Derive(Next(s, step).history)
  {
    hide Derive, Guard, Accepts, Posted, Versioned, CarriedOver, Buried, Shredded, Erased, Said;
  }

  // ---------------------------------------------------------------- the writers as role updates

  function PostedRoles(r: Roles, uid: UserId, action: Action, hasFile: bool): Roles {
    var said := Updated(r, uid, action, hasFile);
    if action == Approve then Updated(said, uid, UnassignTesting, hasFile)
    else if action == Verify then Updated(said, uid, UnassignVerification, hasFile)
    else said
  }

  lemma PostUpdatesRoles(h: History, uid: UserId, action: Action, autofreeze: bool, t1: int, t2: int, t3: int)
    requires LaterThanComments(h, t1) && LaterThanFiles(h, t1) && t1 <= t2 <= t3
    ensures var h' := Posted(h, uid, action, autofreeze, t1, t2, t3);
            && RolesOf(h') == PostedRoles(RolesOf(h), uid, action, NewestFile(h.files).Some?)
            && h'.files == h.files
  {
    hide RolesOf, Updated, NewestFile;
    SaidUpdatesRoles(h, uid, action, t1);
    var said := Said(h, uid, action, t1);
    if action == Approve {
      SaidUpdatesRoles(said, uid, UnassignTesting, t2 + 1);
    } else if action == Verify {
      SaidUpdatesRoles(said, uid, UnassignVerification, t2 + 1);
      var unassigned := Said(said, uid, UnassignVerification, t2 + 1);
      SaidUpdatesRoles(unassigned, SYSTEM, SystemNote, t3 + 2);
      SystemNoteIsNeutral(RolesOf(unassigned), NewestFile(h.files).Some?);
    }
  }

  lemma SystemNoteIsNeutral(r: Roles, hasFile: bool)
    ensures Updated(r, SYSTEM, SystemNote, hasFile) == r
    ensures forall a :: Updated(r, VALIDATOR, a, hasFile) == r
  {
  }

  lemma {:induction false} NotesKeepRoles(h: History, notes: seq<int>, low: int, high: int)
    requires LaterThanFiles(h, low + 1) && LaterThanComments(h, high + 1)
    requires forall n | n in notes :: low <= n <= high
    ensures var h' := Noted(h, notes);
            && RolesOf(h') == RolesOf(h) && h'.files == h.files
            && LaterThanFiles(h', low + 1) && LaterThanComments(h', high + 3)
  {
    hide RolesOf, LaterThanComments, LaterThanFiles, Said, NewestFile;
    if notes == [] {
      EarlierThanLater(h, high + 1, high + 3);
    } else {
      var rest, last := notes[..|notes| - 1], notes[|notes| - 1];
      assert last in notes;
      forall n | n in rest ensures low <= n <= high { assert n in notes; }
      NotesKeepRoles(h, rest, low, high);
      NoteKeepsRoles(Noted(h, rest), last, low, high);
    }
  }

  lemma EarlierThanLater(h: History, at: int, later: int)
    requires LaterThanComments(h, at) && at <= later
    ensures LaterThanComments(h, later)
  {
  }

  lemma NoteKeepsRoles(h: History, note: int, low: int, high: int)
    requires LaterThanFiles(h, low + 1) && LaterThanComments(h, high + 3) && low <= note <= high
    ensures var h' := Said(h, SYSTEM, SystemNote, note + 2);
            && RolesOf(h') == RolesOf(h) && h'.files == h.files
            && LaterThanFiles(h', low + 1) && LaterThanComments(h', high + 3)
  {
    hide RolesOf, Updated, NewestFile;
    SaidUpdatesRoles(h, SYSTEM, SystemNote, note + 2);
    SystemNoteIsNeutral(RolesOf(h), NewestFile(h.files).Some?);
  }

  lemma VersionUpdatesRoles(h: History, uid: UserId, action: Action, tf: int, tc: int, notes: seq<int>, tb: int,
                            passed: bool)
    requires LaterThanComments(h, tf) && LaterThanFiles(h, tf) && tf <= tc <= tb
    requires forall n | n in notes :: tc <= n <= tb
    requires action == UploadFile || action == EditMeta
    ensures var h' := Versioned(h, uid, action, tf, tc, notes, tb, passed);
            && RolesOf(h') == Updated(RolesOf(h).(approved := {}, verified := {}), uid, action, true)
            && NewestFile(h'.files) == Some(File(FreshFileId(h.files), uid, tf, true))
            && LaterThanComments(h', tb + 3) && LaterThanFiles(h', tb + 3)
  {
    hide RolesOf, Updated, NewestFile;
    var stored := Stored(h, uid, tf);
    StoredClearsReviews(h, uid, tf);
    VersionCommentIsNew(h, stored, uid, action, tf, tc);
    var said := Said(stored, uid, action, tc);
    NotesKeepRoles(said, notes, tc, tb);
    var noted := Noted(said, notes);
    SaidUpdatesRoles(noted, VALIDATOR, if passed then Approve else RequestChanges, tb + 1);
    SystemNoteIsNeutral(RolesOf(noted), NewestFile(noted.files).Some?);
  }

  /** The version's own comment may carry the file's timestamp, so it need not be past the cut. */
  lemma VersionCommentIsNew(h: History, stored: History, uid: UserId, action: Action, tf: int, tc: int)
    requires LaterThanComments(h, tf) && LaterThanFiles(h, tf) && tf <= tc && stored == Stored(h, uid, tf)
    requires action == UploadFile || action == EditMeta
    ensures RolesOf(Said(stored, uid, action, tc)) == Updated(RolesOf(stored), uid, action, true)
    ensures Said(stored, uid, action, tc).files == stored.files
    ensures LaterThanComments(Said(stored, uid, action, tc), tc + 1) && LaterThanFiles(stored, tc + 1)
  {
    hide EnabledUsers, Enabled, Latest, NewestFile;
    var c := Comment(FreshCommentId(stored.comments), uid, action, tc, true);
    var cut := After(NewestFile(stored.files));
    EnabledWithOneMore(stored.comments, c, {AssignTesting}, {UnassignTesting}, Everything);
    EnabledWithOneMore(stored.comments, c, {AssignVerification}, {UnassignVerification}, Everything);
    EnabledWithOneMore(stored.comments, c, {RequestChanges}, {Approve, Verify, UploadFile}, Everything);
    EnabledWithOneMore(stored.comments, c, {Approve}, {RequestChanges}, cut);
    EnabledWithOneMore(stored.comments, c, {Verify}, {RequestChanges}, cut);
  }

  function CarriedRoles(r: Roles, row: Row, approver: UserId, verifier: UserId): Roles {
    if row.approved == {} then r
    else
      var approved := Updated(r, approver, Approve, true);
      if row.verified == {} then approved else Updated(approved, verifier, Verify, true)
  }

  lemma CarryOverUpdatesRoles(h: History, row: Row, approver: UserId, verifier: UserId, ta: int, tv: int)
    requires LaterThanComments(h, ta + 3) && LaterThanFiles(h, ta + 3) && ta <= tv && NewestFile(h.files).Some?
    ensures var h' := CarriedOver(h, row, approver, verifier, ta, tv);
            && RolesOf(h') == CarriedRoles(RolesOf(h), row, approver, verifier)
            && h'.files == h.files
  {
    hide RolesOf, Updated, NewestFile;
    if row.approved != {} {
      SaidUpdatesRoles(h, approver, Approve, ta + 3);
      SaidUpdatesRoles(Said(h, approver, Approve, ta + 3), verifier, Verify, tv + 4);
    }
  }
}
