/**
 What a search by review status finds: the filter compiled to conditions on the cache row
 (database/searchmonster.go) read against the review state that row is derived from.
 */
module SearchStatus {
  import Sql
  import opened SearchFilter
  import R = ReviewHistory
  import M = ReviewMachine

  // ---------------------------------------------------------------- the cache row as columns

  function ActionName(a: R.Action): string {
    match a
    case Remark => "comment"
    case Approve => "approve"
    case RequestChanges => "request-changes"
    case MarkAdded => "mark-added"
    case UploadFile => "upload-file"
    case EditMeta => "edit-meta"
    case Verify => "verify"
    case AssignTesting => "assign-testing"
    case UnassignTesting => "unassign-testing"
    case AssignVerification => "assign-verification"
    case UnassignVerification => "unassign-verification"
    case SystemNote => "system"
    case Reject => "reject"
  }

  function ActionNames(list: seq<R.Action>): seq<string> {
    seq(|list|, i requires 0 <= i < |list| => ActionName(list[i]))
  }

  /** GROUP_CONCAT of no user is NULL. */
  function IdList(users: set<R.UserId>): Sql.Value {
    if users == {} then Sql.Null else Sql.Ids(users)
  }

  function Uploader(f: R.Option<R.File>): Sql.Value {
    if f.Some? then Sql.Num(f.value.uploader) else Sql.Null
  }

  /** The joined row of a submission, its distinct actions concatenated in some order. */
  ghost predicate Shows(env: Sql.Joined, s: M.Submission, list: seq<R.Action>) {
    && Sql.Get(env, CacheColumn("active_assigned_testing_ids")) == IdList(s.row.testing)
    && Sql.Get(env, CacheColumn("active_assigned_verification_ids")) == IdList(s.row.verification)
    && Sql.Get(env, CacheColumn("active_requested_changes_ids")) == IdList(s.row.requested)
    && Sql.Get(env, CacheColumn("active_approved_ids")) == IdList(s.row.approved)
    && Sql.Get(env, CacheColumn("active_verified_ids")) == IdList(s.row.verified)
    && Sql.Get(env, CacheColumn("bot_action"))
    == (if s.row.bot.Some? then Sql.Text(ActionName(s.row.bot.value)) else Sql.Null)
    && (forall a :: a in list <==> a in s.row.actions)
    && Sql.Get(env, CacheColumn("distinct_actions"))
    == (if list == [] then Sql.Null else Sql.Text(Concatenated(ActionNames(list))))
    && (Sql.Get(env, Sql.Column(Sql.Submission, "frozen_at")) != Sql.Null <==> s.frozen)
    && Sql.Get(env, Sql.Column(Sql.NewestFile, "fk_user_id")) == Uploader(R.NewestFile(s.history.files))
    && Sql.Get(env, Sql.Column(Sql.OldestFile, "fk_user_id")) == Uploader(R.OldestFile(s.history.files))
  }

  // ---------------------------------------------------------------- reviewers

  /** A status asked of everybody: somebody has the role, or nobody. */
  predicate Somebody(wish: Sql.Option<string>, off: string, on: string, users: set<R.UserId>) {
    && (wish == Sql.Some(on) ==> users != {})
    && (wish == Sql.Some(off) ==> users == {})
  }

  /** A status asked of one user: they have the role, or not. */
  predicate Them(wish: Sql.Option<string>, off: string, on: string, users: set<R.UserId>, uid: R.UserId) {
    && (wish == Sql.Some(on) ==> uid in users)
    && (wish == Sql.Some(off) ==> uid !in users)
  }

  predicate FoundForAnyone(q: Statuses, row: R.Row) {
    && Somebody(q.testing, "unassigned", "assigned", row.testing)
    && Somebody(q.verification, "unassigned", "assigned", row.verification)
    && Somebody(q.requested, "none", "ongoing", row.requested)
    && Somebody(q.approved, "none", "approved", row.approved)
    && Somebody(q.verified, "none", "verified", row.verified)
  }

  predicate FoundFor(q: Statuses, row: R.Row, uid: R.UserId) {
    && Them(q.testing, "unassigned", "assigned", row.testing, uid)
    && Them(q.verification, "unassigned", "assigned", row.verification, uid)
    && Them(q.requested, "none", "ongoing", row.requested, uid)
    && Them(q.approved, "no", "yes", row.approved, uid)
    && Them(q.verified, "no", "yes", row.verified, uid)
  }

  lemma AnyoneFound(q: Statuses, env: Sql.Joined, s: M.Submission, list: seq<R.Action>)
    requires Shows(env, s, list) && ValidStatuses(q, {"none", "approved"}, {"none", "verified"})
    ensures MeansReviewers(q, env) <==> FoundForAnyone(q, s.row)
  {
    hide Concatenated, ActionName, Sql.Get;
  }

  lemma OneFound(q: Statuses, uid: int, env: Sql.Joined, s: M.Submission, list: seq<R.Action>)
    requires Shows(env, s, list) && ValidStatuses(q, {"no", "yes"}, {"no", "yes"})
    ensures MeansReviewer(q, uid, env) <==> FoundFor(q, s.row, uid)
  {
    hide Concatenated, ActionName, Sql.Get;
  }

  // ---------------------------------------------------------------- a search by review status

  const NO_TEXTS: Texts :=
    Texts(Sql.None, Sql.None, Sql.None, Sql.None, Sql.None, Sql.None, Sql.None, Sql.None, Sql.None, Sql.None, Sql.None,
          Sql.None)

  /** A filter with nothing set. */
  const NOTHING: Filter :=
    Filter([], Sql.None, Sql.None, Sql.None, Sql.None, Sql.None, Sql.None, NO_TEXTS, Sql.None, Sql.None,
           Sql.None, Sql.None, Sql.None, Sql.None, [], [], Sql.None, Sql.None, NO_STATUSES, NO_STATUSES, Sql.None,
           NO_STATUSES, Sql.None, [], [], Sql.None, Sql.None, Sql.None, Sql.None, Sql.None, Sql.None, false, Sql.None,
           Sql.None, Sql.None)

  /** Only review fields are set, distinct actions apart. */
  predicate AsksReview(f: Filter) {
    f == NOTHING.(any := f.any, me := f.me, userId := f.userId, user := f.user, botActions := f.botActions,
                  isFrozen := f.isFrozen, lastUploaderNotMe := f.lastUploaderNotMe, submitterNotMe := f.submitterNotMe)
  }

  predicate BySomebodyElse(wish: Sql.Option<string>, f: R.Option<R.File>, uid: R.UserId) {
    wish == Sql.Some("yes") ==> f.Some? && f.value.uploader != uid
  }

  lemma NoTextsMean(env: Sql.Joined)
    ensures MeansTexts(TextColumns(NO_TEXTS), env)
  {
    hide Sql.Get, Contained;
  }

  lemma RestOfNothing(f: Filter, uid: int, env: Sql.Joined, subs: Sql.Subscriptions)
    requires AsksReview(f)
    ensures MeansIdentity(f, env)
    ensures MeansContents(f, env) <==> MeansOneOf(Sql.Get(env, CacheColumn("bot_action")), Names(f.botActions))
  {
    hide Sql.Get, Contained, MeansTexts;
    NoTextsMean(env);
  }

  lemma HistoryFound(f: Filter, uid: int, env: Sql.Joined, s: M.Submission, list: seq<R.Action>)
    requires Checked(f) && AsksReview(f) && Shows(env, s, list)
    ensures MeansHistory(f, uid, env) <==>
              && BySomebodyElse(f.lastUploaderNotMe, R.NewestFile(s.history.files), uid)
              && BySomebodyElse(f.submitterNotMe, R.OldestFile(s.history.files), uid)
  {
    hide Sql.Get, Contained, Concatenated, ActionName, R.NewestFile, R.OldestFile, ValidStatuses;
  }

  lemma FrozenFound(f: Filter, uid: int, env: Sql.Joined, subs: Sql.Subscriptions, s: M.Submission,
                    list: seq<R.Action>)
    requires Checked(f) && AsksReview(f) && Shows(env, s, list)
    ensures MeansRest(f, uid, env, subs) <==>
              (f.isFrozen == Sql.Some("yes") ==> s.frozen) && (f.isFrozen == Sql.Some("no") ==> !s.frozen)
  {
    hide Sql.Get, Concatenated, ActionName, R.NewestFile, R.OldestFile, ValidStatuses;
  }

  lemma BotFound(v: R.Option<R.Action>, wanted: seq<string>)
    ensures var value := if v.Some? then Sql.Text(ActionName(v.value)) else Sql.Null;
            MeansOneOf(value, Names(wanted)) <==> wanted == [] || (v.Some? && ActionName(v.value) in wanted)
  {
    var names := Names(wanted);
    hide ActionName;
    if v.Some? && ActionName(v.value) in wanted {
      var i :| 0 <= i < |wanted| && wanted[i] == ActionName(v.value);
      assert names[i] == Sql.Text(wanted[i]);
    }
  }

  /**
   A search by review status finds exactly the submissions in that state of review: the reviewers as
   derived from the history, the validator's verdict, the uploaders of the newest and the oldest live
   file, and whether it is frozen.
   */
  lemma ReviewSearchFinds(f: Filter, uid: int, env: Sql.Joined, subs: Sql.Subscriptions, s: M.Submission,
                          list: seq<R.Action>)
    requires Checked(f) && AsksReview(f) && Shows(env, s, list)
    ensures Means(f, uid, env, subs) <==>
              && FoundForAnyone(f.any, s.row) && FoundFor(f.me, s.row, uid)
              && (f.userId.Some? ==> FoundFor(f.user, s.row, f.userId.value))
              && (f.botActions == [] || (s.row.bot.Some? && ActionName(s.row.bot.value) in f.botActions))
              && (f.isFrozen == Sql.Some("yes") ==> s.frozen) && (f.isFrozen == Sql.Some("no") ==> !s.frozen)
              && BySomebodyElse(f.lastUploaderNotMe, R.NewestFile(s.history.files), uid)
              && BySomebodyElse(f.submitterNotMe, R.OldestFile(s.history.files), uid)
  {
    hide Sql.Get, MeansReviewers, MeansReviewer, FoundForAnyone, FoundFor, MeansIdentity, MeansContents, MeansHistory,
         MeansRest, MeansOneOf, Concatenated, ActionName, R.NewestFile, R.OldestFile, ValidStatuses, BySomebodyElse,
         AsksReview;
    assert ValidStatuses(f.any, {"none", "approved"}, {"none", "verified"});
    AnyoneFound(f.any, env, s, list);
    OneFound(f.me, uid, env, s, list);
    if f.userId.Some? { OneFound(f.user, f.userId.value, env, s, list); }
    RestOfNothing(f, uid, env, subs);
    BotFound(s.row.bot, f.botActions);
    HistoryFound(f, uid, env, s, list);
    FrozenFound(f, uid, env, subs, s, list);
  }

  // ---------------------------------------------------------------- distinct actions

  lemma {:induction false} ContainsAt(text: string, part: string) returns (k: nat)
    requires Sql.Contains(text, part)
    ensures k + |part| <= |text| && forall i | 0 <= i < |part| :: text[k + i] == part[i]
  {
    k := 0;
    if !(part <= text) {
      k := ContainsAt(text[1..], part);
      k := k + 1;
    }
  }

  lemma ContainsChar(text: string, part: string, c: char)
    requires Sql.Contains(text, part) && c in part
    ensures c in text
  {
    var k := ContainsAt(text, part);
    var i :| 0 <= i < |part| && part[i] == c;
    assert text[k + i] == c;
  }

  /** The last character of the part stands in the text at least as far behind as in the part. */
  lemma ContainsLast(text: string, part: string)
    requires Sql.Contains(text, part) && part != []
    ensures exists j :: |part| - 1 <= j < |text| && text[j] == part[|part| - 1]
  {
    var k := ContainsAt(text, part);
    assert text[k + |part| - 1] == part[|part| - 1];
  }

  /** Characters of a name by which it is told from others. */
  function Marks(b: R.Action): string {
    match b
    case Remark => "om"
    case Approve => "pr"
    case RequestChanges => "q"
    case MarkAdded => "k"
    case UploadFile => "l"
    case EditMeta => "mi"
    case Verify => "yv"
    case AssignTesting => "gi"
    case UnassignTesting => "giu"
    case AssignVerification => "vg"
    case UnassignVerification => "vgu"
    case SystemNote => "ys"
    case Reject => "j"
  }

  /** A name that is part of another one. */
  predicate Withdraws(a: R.Action, b: R.Action) {
    (a == R.UnassignTesting && b == R.AssignTesting) || (a == R.UnassignVerification && b == R.AssignVerification)
  }

  predicate Verifications(a: R.Action, b: R.Action) {
    a in {R.AssignVerification, R.UnassignVerification} && b in {R.AssignTesting, R.UnassignTesting}
  }

  /** The characters a name is spelled with. */
  function Letters(a: R.Action): set<char> {
    match a
    case Remark => {'c', 'o', 'm', 'e', 'n', 't'}
    case Approve => {'a', 'p', 'r', 'o', 'v', 'e'}
    case RequestChanges => {'r', 'e', 'q', 'u', 's', 't', '-', 'c', 'h', 'a', 'n', 'g'}
    case MarkAdded => {'m', 'a', 'r', 'k', '-', 'd', 'e'}
    case UploadFile => {'u', 'p', 'l', 'o', 'a', 'd', '-', 'f', 'i', 'e'}
    case EditMeta => {'e', 'd', 'i', 't', '-', 'm', 'a'}
    case Verify => {'v', 'e', 'r', 'i', 'f', 'y'}
    case AssignTesting => {'a', 's', 'i', 'g', 'n', '-', 't', 'e'}
    case UnassignTesting => {'u', 'n', 'a', 's', 'i', 'g', '-', 't', 'e'}
    case AssignVerification => {'a', 's', 'i', 'g', 'n', '-', 'v', 'e', 'r', 'f', 'c', 't', 'o'}
    case UnassignVerification => {'u', 'n', 'a', 's', 'i', 'g', '-', 'v', 'e', 'r', 'f', 'c', 't', 'o'}
    case SystemNote => {'s', 'y', 't', 'e', 'm'}
    case Reject => {'r', 'e', 'j', 'c', 't'}
  }

  lemma SpelledA(a: R.Action, i: nat)
    requires i < |ActionName(a)| && (a.Remark? || a.Approve? || a.RequestChanges?)
    ensures ActionName(a)[i] in Letters(a)
  {
  }

  lemma SpelledB(a: R.Action, i: nat)
    requires i < |ActionName(a)| && (a.MarkAdded? || a.UploadFile? || a.EditMeta? || a.Verify?)
    ensures ActionName(a)[i] in Letters(a)
  {
  }

  lemma SpelledC(a: R.Action, i: nat)
    requires i < |ActionName(a)| && (a.AssignTesting? || a.UnassignTesting?)
    ensures ActionName(a)[i] in Letters(a)
  {
  }

  lemma SpelledD(a: R.Action, i: nat)
    requires i < |ActionName(a)| && (a.AssignVerification? || a.UnassignVerification?)
    ensures ActionName(a)[i] in Letters(a)
  {
  }

  lemma SpelledE(a: R.Action, i: nat)
    requires i < |ActionName(a)| && (a.SystemNote? || a.Reject?)
    ensures ActionName(a)[i] in Letters(a)
  {
  }

  lemma Spelled(a: R.Action, c: char)
    requires c in ActionName(a)
    ensures c in Letters(a)
  {
    hide ActionName, Letters;
    var i :| 0 <= i < |ActionName(a)| && ActionName(a)[i] == c;
    if a.Remark? || a.Approve? || a.RequestChanges? {
      SpelledA(a, i);
    } else if a.MarkAdded? || a.UploadFile? || a.EditMeta? || a.Verify? {
      SpelledB(a, i);
    } else if a.AssignTesting? || a.UnassignTesting? {
      SpelledC(a, i);
    } else if a.AssignVerification? || a.UnassignVerification? {
      SpelledD(a, i);
    } else {
      SpelledE(a, i);
    }
  }

  lemma MarksInName(b: R.Action)
    ensures forall c | c in Marks(b) :: c in ActionName(b)
  {
    assert forall i | 0 <= i < |Marks(b)| :: Marks(b)[i] in ActionName(b);
  }

  lemma MarkMissing(a: R.Action, b: R.Action)
    requires a != b && !Withdraws(a, b) && !Verifications(a, b)
    ensures exists i :: 0 <= i < |Marks(b)| && Marks(b)[i] !in Letters(a)
  {
    var m := Marks(b);
    assert m[0] !in Letters(a) || (|m| > 1 && m[1] !in Letters(a)) || (|m| > 2 && m[2] !in Letters(a));
  }

  lemma VerificationTold(a: R.Action, b: R.Action)
    requires Verifications(a, b)
    ensures !Sql.Contains(ActionName(a), ActionName(b))
  {
    var text, part := ActionName(a), ActionName(b);
    assert part[|part| - 1] == 'g' && |part| >= 14;
    assert forall j | 13 <= j < |text| :: text[j] != 'g';
    if Sql.Contains(text, part) { ContainsLast(text, part); }
  }

  lemma WithdrawalContains()
    ensures Sql.Contains("unassign-testing", "assign-testing")
    ensures Sql.Contains("unassign-verification", "assign-verification")
  {
    ContainsTail("un", "assign-testing");
    ContainsTail("un", "assign-verification");
  }

  lemma {:induction false} ContainsTail(front: string, part: string)
    ensures Sql.Contains(front + part, part)
  {
    if front == "" {
      assert front + part == part;
    } else {
      assert (front + part)[1..] == front[1..] + part;
      ContainsTail(front[1..], part);
    }
  }

  /** One action's name is part of another's only for a withdrawal and what it withdraws. */
  lemma NameContains(a: R.Action, b: R.Action)
    ensures Sql.Contains(ActionName(a), ActionName(b)) <==> a == b || Withdraws(a, b)
  {
    hide ActionName;
    assert Withdraws(a, b) ==> Sql.Contains(ActionName(a), ActionName(b)) by { WithdrawalIsLonger(a, b); }
    if a != b && !Withdraws(a, b) {
      if Verifications(a, b) {
        VerificationTold(a, b);
      } else {
        ToldIsOther(a, b);
      }
    }
  }

  lemma WithdrawalIsLonger(a: R.Action, b: R.Action)
    ensures Withdraws(a, b) ==> Sql.Contains(ActionName(a), ActionName(b))
  {
    WithdrawalContains();
  }

  lemma ToldIsOther(a: R.Action, b: R.Action)
    requires a != b && !Withdraws(a, b) && !Verifications(a, b)
    ensures !Sql.Contains(ActionName(a), ActionName(b))
  {
    hide ActionName, Letters;
    MarkMissing(a, b);
    MarksInName(b);
    var i :| 0 <= i < |Marks(b)| && Marks(b)[i] !in Letters(a);
    if Sql.Contains(ActionName(a), ActionName(b)) {
      ContainsChar(ActionName(a), ActionName(b), Marks(b)[i]);
      Spelled(a, Marks(b)[i]);
    }
  }

  lemma NameHasNoComma(a: R.Action)
    ensures ',' !in ActionName(a)
  {
  }

  /**
   Asking for one action finds a submission exactly if one of its live comments has that action, or
   withdraws it: whoever looks for "assign-testing" also finds where only an assignment was given up.
   */
  lemma ActionSearchFinds(env: Sql.Joined, s: M.Submission, list: seq<R.Action>, wanted: R.Action)
    requires Shows(env, s, list)
    ensures MeansFound(Sql.Get(env, CacheColumn("distinct_actions")), [ActionName(wanted)]) <==>
              || wanted in s.row.actions || (wanted == R.AssignTesting && R.UnassignTesting in s.row.actions)
              || (wanted == R.AssignVerification && R.UnassignVerification in s.row.actions)
  {
    hide ActionName, Concatenated, Sql.Get, Sql.Contains;
    var v, part := Sql.Get(env, CacheColumn("distinct_actions")), ActionName(wanted);
    assert part in [part] && forall a | a in [part] :: a == part;
    NameHasNoComma(wanted);
    forall a: R.Action ensures Sql.Contains(ActionName(a), part) <==> a == wanted || Withdraws(a, wanted) {
      NameContains(a, wanted);
    }
    if list != [] {
      var names := ActionNames(list);
      FoundMeansPartOfAnAction(names, part);
      forall i | 0 <= i < |list|
        ensures Sql.Contains(names[i], part) <==> list[i] == wanted || Withdraws(list[i], wanted)
      {
        assert names[i] == ActionName(list[i]);
      }
    }
  }
}
