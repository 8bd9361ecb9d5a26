/**
 The history writers as objects: the record of one submission with its stored cache row
 (database/caching.go, database/mysqldal.go), and the batch receiver of
 service/siteservice_comments.go working on a private copy until it commits.
 */
module ReviewDesk {
  import opened ReviewHistory
  import opened ReviewRoles
  import opened ReviewMachine

  function FileWithId(files: seq<File>, id: Option<int>): Option<File> {
    if files == [] || id.None? then None
    else if files[0].id == id.value then Some(files[0])
    else FileWithId(files[1..], id)
  }

  lemma {:induction false} FileWithIdFinds(files: seq<File>, f: File)
    requires f in files && forall i, j | 0 <= i < j < |files| :: files[i].id != files[j].id
    ensures FileWithId(files, Some(f.id)) == Some(f)
  {
    if files[0] != f {
      assert files[0].id != f.id;
      FileWithIdFinds(files[1..], f);
    }
  }

  class SubmissionRecord {
    var files: seq<File>
    var comments: seq<Comment>
    var row: Row

    function AsHistory(): History
      reads this
    {
      History(files, comments)
    }

    ghost predicate Valid()
      reads this
    {
      WellFormed(AsHistory())
    }

    constructor ()
      ensures Valid() && AsHistory() == History([], [])
    {
      files, comments := [], [];
      row := Row(None, None, None, {}, {}, {}, {}, {}, None, {});
    }

    /**
     Two UPDATE statements: the first stores the newest and oldest rows, the second stores the
     reviewer sets, whose queries find the cut through the newest file id just stored.
     */
    method UpdateSubmissionCacheTable()
      requires Valid()
      modifies `row
      ensures row == Derive(AsHistory())
    {
      hide EnabledUsers, LiveActions, BotAction;
      row := row.(
        newestFile := Id(NewestFile(files), (f: File) => f.id),
        oldestFile := Id(OldestFile(files), (f: File) => f.id),
        newestComment := Id(Latest(comments, (c: Comment) => c.live), (c: Comment) => c.id));
      var lastFile := After(FileWithId(files, row.newestFile));
      if NewestFile(files).Some? {
        FileWithIdFinds(files, NewestFile(files).value);
      }
      var testing := EnabledUsers(comments, {AssignTesting}, {UnassignTesting}, Everything);
      var verification := EnabledUsers(comments, {AssignVerification}, {UnassignVerification}, Everything);
      var requested := EnabledUsers(comments, {RequestChanges}, {Approve, Verify, UploadFile}, Everything);
      var approved := EnabledUsers(comments, {Approve}, {RequestChanges}, lastFile);
      var verified := EnabledUsers(comments, {Verify}, {RequestChanges}, lastFile);
      var bot := BotAction(comments);
      var actions := LiveActions(AsHistory());
      ghost var all, shown := actions, RolesOf(AsHistory());
      var todo := actions;
      while todo != {}
        invariant todo <= all && (Reject in all ==> Reject in todo)
        invariant actions == all && Roles(testing, verification, requested, approved, verified) == shown
        decreases todo
      {
        var action :| action in todo;
        if action == Reject {
          testing, verification, requested, approved, verified := {}, {}, {}, {}, {};
          actions := {Reject};
          break;
        }
        todo := todo - {action};
      }
      row := row.(testing := testing, verification := verification, requested := requested,
                  approved := approved, verified := verified, bot := bot, actions := actions);
    }

    method StoreComment(author: UserId, action: Action, at: int) returns (id: int)
      requires Valid()
      modifies `comments
      ensures Valid() && AsHistory() == Said(old(AsHistory()), author, action, at)
    {
      SaidKeepsWellFormed(AsHistory(), author, action, at);
      id := FreshCommentId(comments);
      comments := comments + [Comment(id, author, action, at, true)];
    }

    method StoreSubmissionFile(uploader: UserId, at: int) returns (id: int)
      requires Valid()
      modifies `files
      ensures Valid() && AsHistory() == Stored(old(AsHistory()), uploader, at)
    {
      StoredKeepsWellFormed(AsHistory(), uploader, at);
      id := FreshFileId(files);
      files := files + [File(id, uploader, at, true)];
    }

    method SoftDeleteComment(id: int)
      requires Valid()
      modifies `comments, `row
      ensures Valid() && AsHistory() == Buried(old(AsHistory()), id) && row == Derive(AsHistory())
    {
      comments := Buried(AsHistory(), id).comments;
      UpdateSubmissionCacheTable();
    }

    /** The last live file of a submission cannot be deleted. */
    method SoftDeleteSubmissionFile(id: int) returns (ok: bool)
      requires Valid()
      modifies `files, `row
      ensures ok == (LiveFiles(old(files)) > 1)
      ensures !ok ==> files == old(files) && row == old(row)
      ensures ok ==> Valid() && AsHistory() == Shredded(old(AsHistory()), id) && row == Derive(AsHistory())
    {
      ok := LiveFiles(files) > 1;
      if ok {
        files := Shredded(AsHistory(), id).files;
        UpdateSubmissionCacheTable();
      }
    }
  }

  // ---------------------------------------------------------------- batches

  datatype Reply =
    | NoSubmissions | InvalidAction | MissingMessage | TooMany | NotFound | Frozen(sid: int)
    | Refused(sid: int, why: Refusal)
    | Received(posted: nat)

  datatype Batch = Batch(subs: map<int, Submission>, readings: nat, posted: nat)

  /** One submission of a batch, with up to three clock readings. */
  function PostOne(s: Submission, uid: UserId, action: Action, clock: nat -> int, n: nat): Submission {
    Next(s, Post(uid, action, true, true, clock(n), clock(n + 1), clock(n + 2)))
  }

  datatype Progress = Stopped(reply: Reply) | Through(value: Batch)

  /** The loop of ReceiveComments over the submissions found; stopping is an error that rolls everything back. */
  function PostAll(b: Batch, found: seq<int>, uid: UserId, action: Action, freezer: bool, ignoreDupes: bool,
                   clock: nat -> int): Progress
    decreases |found|
  {
    if found == [] then Through(b)
    else if found[0] !in b.subs then Stopped(NotFound)
    else
      var s := b.subs[found[0]];
      if s.frozen && !freezer then Stopped(Frozen(found[0]))
      else if Guard(uid, action, s).Some? then
        (if ignoreDupes then PostAll(b, found[1..], uid, action, freezer, ignoreDupes, clock)
         else Stopped(Refused(found[0], Guard(uid, action, s).value)))
      else PostAll(WithPost(b, found[0], uid, action, clock), found[1..], uid, action, freezer, ignoreDupes, clock)
  }

  function WithPost(b: Batch, sid: int, uid: UserId, action: Action, clock: nat -> int): Batch
    requires sid in b.subs
  {
    Batch(b.subs[sid := PostOne(b.subs[sid], uid, action, clock, b.readings)], b.readings + 3, b.posted + 1)
  }

  predicate Listed(sid: int, subs: map<int, Submission>) {
    sid in subs && !subs[sid].deleted
  }

  /** The search behind a batch asks for no page size, so it returns at most this many rows. */
  const DEFAULT_LIMIT: nat := 100

  /** The requested live submissions, each once: all of them, or a full page. */
  ghost predicate SearchResult(found: seq<int>, sids: seq<int>, subs: map<int, Submission>) {
    && (forall i, j | 0 <= i < j < |found| :: found[i] != found[j])
    && (forall i | 0 <= i < |found| :: found[i] in sids && Listed(found[i], subs))
    && |found| <= DEFAULT_LIMIT
    && (|found| == DEFAULT_LIMIT || forall i | 0 <= i < |sids| && Listed(sids[i], subs) :: sids[i] in found)
  }

  /** The reply to a batch and the submissions after it. */
  function ReplyTo(subs: map<int, Submission>, uid: UserId, sids: seq<int>, found: seq<int>, action: Action,
                   message: bool, ignoreDupes: bool, freezer: bool, clock: nat -> int): (Reply, map<int, Submission>)
  {
    if sids == [] then (NoSubmissions, subs)
    else if action !in AllowedActions then (InvalidAction, subs)
    else if action in MessageActions && !message then (MissingMessage, subs)
    else if action in {RequestChanges, Reject} && |sids| > 1 then (TooMany, subs)
    else if !AllListed(sids, subs) || !AllIn(sids, found) then (NotFound, subs)
    else
      match PostAll(Batch(subs, 0, 0), found, uid, action, freezer, ignoreDupes, clock)
      case Stopped(reply) => (reply, subs)
      case Through(b) => (Received(b.posted), b.subs)
  }

  predicate AllListed(sids: seq<int>, subs: map<int, Submission>) {
    forall i | 0 <= i < |sids| :: Listed(sids[i], subs)
  }

  predicate AllIn(sids: seq<int>, found: seq<int>) {
    forall i | 0 <= i < |sids| :: sids[i] in found
  }

  class CommentDesk {
    var subs: map<int, Submission>

    constructor (subs: map<int, Submission>)
      ensures this.subs == subs
    {
      this.subs := subs;
    }

    /** ReceiveComments, `found` being the search result: all of the batch is committed or none of it. */
    method ReceiveComments(uid: UserId, sids: seq<int>, found: seq<int>, action: Action, message: bool,
                           ignoreDupes: bool, freezer: bool, clock: nat -> int) returns (reply: Reply)
      requires SearchResult(found, sids, subs)
      modifies this
      ensures (reply, subs) == ReplyTo(old(subs), uid, sids, found, action, message, ignoreDupes, freezer, clock)
    {
      hide Guard, Next, PostOne, Listed;
      if sids == [] { return NoSubmissions; }
      if action !in AllowedActions { return InvalidAction; }
      if action in MessageActions && !message { return MissingMessage; }
      if action in {RequestChanges, Reject} && |sids| > 1 { return TooMany; }
      for i := 0 to |sids|
        invariant forall j | 0 <= j < i :: Listed(sids[j], subs)
      {
        if !Listed(sids[i], subs) { return NotFound; }
      }
      for i := 0 to |sids|
        invariant forall j | 0 <= j < i :: sids[j] in found
      {
        if sids[i] !in found { return NotFound; }
      }
      reply := PostFound(uid, found, action, ignoreDupes, freezer, clock);
    }

    /** The loop over the submissions found, on a copy until it commits. */
    method PostFound(uid: UserId, found: seq<int>, action: Action, ignoreDupes: bool, freezer: bool, clock: nat -> int)
      returns (reply: Reply)
      requires forall i | 0 <= i < |found| :: Listed(found[i], subs)
      modifies this
      ensures match PostAll(Batch(old(subs), 0, 0), found, uid, action, freezer, ignoreDupes, clock)
              case Stopped(problem) => reply == problem && subs == old(subs)
              case Through(b) => reply == Received(b.posted) && subs == b.subs
    {
      hide Guard, Next, PostOne;
      var work, readings, posted := subs, 0, 0;
      for i := 0 to |found|
        invariant subs == old(subs) && work.Keys == subs.Keys
        invariant forall j | 0 <= j < |found| :: found[j] in work
        invariant PostAll(Batch(work, readings, posted), found[i..], uid, action, freezer, ignoreDupes, clock)
               == PostAll(Batch(subs, 0, 0), found, uid, action, freezer, ignoreDupes, clock)
      {
        var sid := found[i];
        assert found[i..][1..] == found[i + 1..];
        var s := work[sid];
        if s.frozen && !freezer { return Frozen(sid); }
        var refusal := Guard(uid, action, s);
        if refusal.Some? {
          if ignoreDupes { continue; }
          return Refused(sid, refusal.value);
        }
        assert WithPost(Batch(work, readings, posted), sid, uid, action, clock)
            == Batch(work[sid := PostOne(s, uid, action, clock, readings)], readings + 3, posted + 1);
        work := work[sid := PostOne(s, uid, action, clock, readings)];
        readings := readings + 3;
        posted := posted + 1;
      }
      subs := work;
      reply := Received(posted);
    }
  }

  /** What stops the batch at this submission, if anything does. */
  function Problem(sid: int, s: Submission, uid: UserId, action: Action, freezer: bool,
                   ignoreDupes: bool): Option<Reply> {
    if s.frozen && !freezer then Some(Frozen(sid))
    else if Guard(uid, action, s).Some? && !ignoreDupes then Some(Refused(sid, Guard(uid, action, s).value))
    else None
  }

  /** The first problem among the submissions as they are before the batch. */
  function FirstProblem(subs: map<int, Submission>, found: seq<int>, uid: UserId, action: Action, freezer: bool,
                        ignoreDupes: bool): Option<Reply>
    requires forall i | 0 <= i < |found| :: found[i] in subs
  {
    if found == [] then None
    else
      var first := Problem(found[0], subs[found[0]], uid, action, freezer, ignoreDupes);
      if first.Some? then first else FirstProblem(subs, found[1..], uid, action, freezer, ignoreDupes)
  }

  lemma {:induction false} ProblemsAsBefore(subs: map<int, Submission>, subs': map<int, Submission>, found: seq<int>,
                                            uid: UserId, action: Action, freezer: bool, ignoreDupes: bool)
    requires forall i | 0 <= i < |found| :: found[i] in subs && found[i] in subs' && subs[found[i]] == subs'[found[i]]
    ensures FirstProblem(subs, found, uid, action, freezer, ignoreDupes)
         == FirstProblem(subs', found, uid, action, freezer, ignoreDupes)
  {
    hide Guard;
    if found != [] { ProblemsAsBefore(subs, subs', found[1..], uid, action, freezer, ignoreDupes); }
  }

  /** Posts to the submissions before it never make one pass or fail: the batch stops at the first problem there was. */
  lemma {:induction false} BatchStopsAtFirstProblem(b: Batch, found: seq<int>, uid: UserId, action: Action,
                                                    freezer: bool, ignoreDupes: bool, clock: nat -> int)
    requires forall i | 0 <= i < |found| :: found[i] in b.subs
    requires forall i, j | 0 <= i < j < |found| :: found[i] != found[j]
    ensures var r, problem := PostAll(b, found, uid, action, freezer, ignoreDupes, clock),
                              FirstProblem(b.subs, found, uid, action, freezer, ignoreDupes);
            if problem.Some? then r == Stopped(problem.value) else r.Through?
    decreases |found|
  {
    hide Guard, PostOne, FirstProblem;
    FirstProblemUnfolds(b.subs, found, uid, action, freezer, ignoreDupes);
    if found != [] {
      var sid, rest := found[0], found[1..];
      assert forall i | 0 <= i < |rest| :: rest[i] == found[i + 1];
      if Guard(uid, action, b.subs[sid]).Some? {
        BatchStopsAtFirstProblem(b, rest, uid, action, freezer, ignoreDupes, clock);
      } else {
        var b1 := WithPost(b, sid, uid, action, clock);
        BatchStopsAtFirstProblem(b1, rest, uid, action, freezer, ignoreDupes, clock);
        ProblemsAsBefore(b.subs, b1.subs, rest, uid, action, freezer, ignoreDupes);
      }
    }
  }

  lemma FirstProblemUnfolds(subs: map<int, Submission>, found: seq<int>, uid: UserId, action: Action, freezer: bool,
                            ignoreDupes: bool)
    requires forall i | 0 <= i < |found| :: found[i] in subs
    ensures FirstProblem(subs, found, uid, action, freezer, ignoreDupes) ==
              if found == [] then None
              else
                var first := Problem(found[0], subs[found[0]], uid, action, freezer, ignoreDupes);
                if first.Some? then first else FirstProblem(subs, found[1..], uid, action, freezer, ignoreDupes)
  {
    hide Guard;
  }

  lemma {:induction false} NoProblemMeansNone(subs: map<int, Submission>, found: seq<int>, uid: UserId, action: Action,
                                              freezer: bool, ignoreDupes: bool)
    requires forall i | 0 <= i < |found| :: found[i] in subs
    ensures FirstProblem(subs, found, uid, action, freezer, ignoreDupes) == None
       <==> forall i | 0 <= i < |found| :: Problem(found[i], subs[found[i]], uid, action, freezer, ignoreDupes) == None
  {
    hide Problem;
    if found != [] {
      NoProblemMeansNone(subs, found[1..], uid, action, freezer, ignoreDupes);
      assert forall i | 0 <= i < |found| - 1 :: found[1..][i] == found[i + 1];
    }
  }

  function Ids<T>(s: seq<T>): set<T> {
    set x | x in s
  }

  lemma IdsWithin<T>(a: seq<T>, b: seq<T>)
    ensures (forall i | 0 <= i < |a| :: a[i] in b) <==> Ids(a) <= Ids(b)
  {
    assert forall i | 0 <= i < |a| :: a[i] in Ids(a);
  }

  lemma {:induction false} DistinctCount<T>(s: seq<T>)
    requires forall i, j | 0 <= i < j < |s| :: s[i] != s[j]
    ensures |Ids(s)| == |s|
  {
    if s != [] {
      assert Ids(s) == {s[0]} + Ids(s[1..]);
      assert s[0] !in s[1..];
      DistinctCount(s[1..]);
    }
  }

  lemma {:induction false} SubsetCounts<T>(a: set<T>, b: set<T>)
    requires a <= b
    ensures |a| <= |b| && (|a| == |b| ==> a == b)
  {
    if a != {} {
      var x :| x in a;
      SubsetCounts(a - {x}, b - {x});
      assert a == (a - {x}) + {x} && b == (b - {x}) + {x};
    }
  }

  /** The search finds a whole batch of live submissions exactly if they fit one page. */
  lemma BatchesFitOnePage(found: seq<int>, sids: seq<int>, subs: map<int, Submission>)
    requires SearchResult(found, sids, subs) && AllListed(sids, subs)
    ensures AllIn(sids, found) <==> |Ids(sids)| <= DEFAULT_LIMIT
  {
    hide Listed;
    DistinctCount(found);
    IdsWithin(found, sids);
    IdsWithin(sids, found);
    SubsetCounts(Ids(found), Ids(sids));
    if AllIn(sids, found) { SubsetCounts(Ids(sids), Ids(found)); }
  }

  /**
   A batch is received exactly if it is not empty, its action is known and has the message it needs,
   there is one submission if the action asks for that, there are at most a hundred different ones, all live, and
   each of them, as it is before the batch, is not closed to this user by a freeze and accepts the
   action or may be skipped as a duplicate.
   */
  lemma ReceivedExactly(subs: map<int, Submission>, uid: UserId, sids: seq<int>, found: seq<int>, action: Action,
                        message: bool, ignoreDupes: bool, freezer: bool, clock: nat -> int)
    requires SearchResult(found, sids, subs)
    ensures ReplyTo(subs, uid, sids, found, action, message, ignoreDupes, freezer, clock).0.Received? <==>
              && sids != [] && action in AllowedActions && (action in MessageActions ==> message)
              && (action in {RequestChanges, Reject} ==> |sids| == 1)
              && |Ids(sids)| <= DEFAULT_LIMIT
              && (forall i | 0 <= i < |sids| :: Listed(sids[i], subs)
                    && (!subs[sids[i]].frozen || freezer) && (Guard(uid, action, subs[sids[i]]).None? || ignoreDupes))
  {
    hide Guard, PostAll, AllowedActions, MessageActions;
    if AllListed(sids, subs) {
      BatchesFitOnePage(found, sids, subs);
      var b := Batch(subs, 0, 0);
      BatchStopsAtFirstProblem(b, found, uid, action, freezer, ignoreDupes, clock);
      NoProblemMeansNone(subs, found, uid, action, freezer, ignoreDupes);
      ProblemsAreReplies(subs, found, uid, action, freezer, ignoreDupes);
    }
  }

  /** Which error a refused batch is answered with: the first of these that applies, else the first problem found. */
  lemma RefusedExactly(subs: map<int, Submission>, uid: UserId, sids: seq<int>, found: seq<int>, action: Action,
                       message: bool, ignoreDupes: bool, freezer: bool, clock: nat -> int)
    requires SearchResult(found, sids, subs)
    ensures var reply := ReplyTo(subs, uid, sids, found, action, message, ignoreDupes, freezer, clock).0;
            var single := action == RequestChanges || action == Reject;
            var talks := action in {Remark, RequestChanges, Reject};
            var asked := sids != [] && action !in {SystemNote, EditMeta};
            var complete := forall i | 0 <= i < |sids| :: sids[i] in subs && !subs[sids[i]].deleted;
            && (reply == NoSubmissions <==> sids == [])
            && (reply == InvalidAction <==> sids != [] && action in {SystemNote, EditMeta})
            && (reply == MissingMessage <==> asked && talks && !message)
            && (reply == TooMany <==> asked && !(talks && !message) && single && |sids| > 1)
            && (reply == NotFound <==> asked && !(talks && !message) && !(single && |sids| > 1)
                                       && !(complete && |Ids(sids)| <= 100))
            && ((reply.Frozen? || reply.Refused?) ==>
                  (forall i | 0 <= i < |found| :: found[i] in subs)
                  && FirstProblem(subs, found, uid, action, freezer, ignoreDupes) == Some(reply))
  {
    hide Guard, PostAll, FirstProblem;
    ActionsOf(action);
    if AllListed(sids, subs) {
      BatchesFitOnePage(found, sids, subs);
      BatchStopsAtFirstProblem(Batch(subs, 0, 0), found, uid, action, freezer, ignoreDupes, clock);
      ProblemsAreReplies(subs, found, uid, action, freezer, ignoreDupes);
    }
  }

  lemma ActionsOf(action: Action)
    ensures action in AllowedActions <==> action !in {SystemNote, EditMeta}
    ensures action in MessageActions <==> action in {Remark, RequestChanges, Reject}
  {
  }

  lemma {:induction false} ProblemsAreReplies(subs: map<int, Submission>, found: seq<int>, uid: UserId, action: Action,
                                              freezer: bool, ignoreDupes: bool)
    requires forall i | 0 <= i < |found| :: found[i] in subs
    ensures var problem := FirstProblem(subs, found, uid, action, freezer, ignoreDupes);
            problem.Some? ==> problem.value.Frozen? || problem.value.Refused?
  {
    hide Guard;
    if found != [] { ProblemsAreReplies(subs, found[1..], uid, action, freezer, ignoreDupes); }
  }

  ghost predicate Monotone(clock: nat -> int) {
    forall i: nat, j: nat | i <= j :: clock(i) <= clock(j)
  }

  ghost predicate Ahead(s: Submission, at: int) {
    LaterThanComments(s.history, at) && LaterThanFiles(s.history, at)
  }

  /** `s'` is `s` after one properly timed, accepted post. */
  ghost predicate PostedOnce(s: Submission, s': Submission, uid: UserId, action: Action, message: bool, freezer: bool) {
    exists step: Step :: IsPost(step, uid, action, message, freezer) && Timed(s, step) && s' == Next(s, step)
  }

  predicate IsPost(step: Step, uid: UserId, action: Action, message: bool, freezer: bool) {
    step.Post? && step.uid == uid && step.action == action && step.message == message && step.freezer == freezer
  }

  lemma AcceptedStep(s: Submission, uid: UserId, action: Action, message: bool, freezer: bool, clock: nat -> int,
                     n: nat)
    requires Accepts(s, uid, action, message, freezer) && Monotone(clock) && Ahead(s, clock(n))
    ensures PostedOnce(s, PostOne(s, uid, action, clock, n), uid, action, message, freezer)
  {
    hide Guard, Posted, Derive;
    var step := Post(uid, action, message, freezer, clock(n), clock(n + 1), clock(n + 2));
    assert Timed(s, step) && IsPost(step, uid, action, message, freezer);
    assert Accepts(s, uid, action, true, true);
    assert Next(s, step) == PostOne(s, uid, action, clock, n);
  }

  ghost predicate SteppedOnce(b: Batch, b': Batch, found: seq<int>, uid: UserId, action: Action, message: bool,
                              freezer: bool, ignoreDupes: bool)
  {
    && b'.subs.Keys == b.subs.Keys
    && (forall sid | sid in b.subs && sid !in found :: b'.subs[sid] == b.subs[sid])
    && (forall i | 0 <= i < |found| :: found[i] in b.subs &&
          if Accepts(b.subs[found[i]], uid, action, message, freezer)
          then PostedOnce(b.subs[found[i]], b'.subs[found[i]], uid, action, message, freezer)
          else b'.subs[found[i]] == b.subs[found[i]] && ignoreDupes)
    && b'.posted == b.posted + AcceptedIn(b.subs, found, uid, action, message, freezer)
  }

  /**
   A committed batch is one independent step of the review machine per listed submission: each
   takes the post if the guard accepts it and is left alone otherwise, which happens only under
   "ignore duplicates"; nothing outside the list changes, and the count is of the posts made.
   */
  lemma {:induction false} BatchIsSteps(b: Batch, found: seq<int>, uid: UserId, action: Action, message: bool,
                                        freezer: bool, ignoreDupes: bool, clock: nat -> int)
    requires forall i | 0 <= i < |found| :: Listed(found[i], b.subs) && Ahead(b.subs[found[i]], clock(b.readings))
    requires forall i, j | 0 <= i < j < |found| :: found[i] != found[j]
    requires action in AllowedActions && (action in MessageActions ==> message) && Monotone(clock)
    requires PostAll(b, found, uid, action, freezer, ignoreDupes, clock).Through?
    ensures SteppedOnce(b, PostAll(b, found, uid, action, freezer, ignoreDupes, clock).value, found, uid, action,
                        message, freezer, ignoreDupes)
    decreases |found|
  {
    hide Guard, PostOne, Ahead, SteppedOnce, PostedOnce;
    if found == [] {
      NothingStepped(b, uid, action, message, freezer, ignoreDupes);
    } else {
      var sid, rest := found[0], found[1..];
      var s := b.subs[sid];
      assert forall i | 0 <= i < |rest| :: rest[i] == found[i + 1];
      assert sid !in rest;
      var b1 := if Guard(uid, action, s).Some? then b else WithPost(b, sid, uid, action, clock);
      if Guard(uid, action, s).None? {
        AcceptedStep(s, uid, action, message, freezer, clock, b.readings);
      }
      forall i | 0 <= i < |rest| ensures Ahead(b1.subs[rest[i]], clock(b1.readings)) {
        AheadGrows(b.subs[rest[i]], clock(b.readings), clock(b1.readings));
      }
      BatchIsSteps(b1, rest, uid, action, message, freezer, ignoreDupes, clock);
      FirstThenRest(b, b1, PostAll(b1, rest, uid, action, freezer, ignoreDupes, clock).value, found,
                    uid, action, message, freezer, ignoreDupes);
    }
  }

  lemma NothingStepped(b: Batch, uid: UserId, action: Action, message: bool, freezer: bool, ignoreDupes: bool)
    ensures SteppedOnce(b, b, [], uid, action, message, freezer, ignoreDupes)
  {
  }

  lemma FirstThenRest(b: Batch, b1: Batch, b': Batch, found: seq<int>, uid: UserId, action: Action, message: bool,
                      freezer: bool, ignoreDupes: bool)
    requires found != [] && found[0] in b.subs && found[0] !in found[1..]
    requires b1.subs.Keys == b.subs.Keys && forall sid | sid in b.subs && sid != found[0] :: b1.subs[sid] == b.subs[sid]
    requires var accepted := Accepts(b.subs[found[0]], uid, action, message, freezer);
             && b1.posted == b.posted + (if accepted then 1 else 0)
             && if accepted then PostedOnce(b.subs[found[0]], b1.subs[found[0]], uid, action, message, freezer)
                else b1.subs[found[0]] == b.subs[found[0]] && ignoreDupes
    requires SteppedOnce(b1, b', found[1..], uid, action, message, freezer, ignoreDupes)
    ensures SteppedOnce(b, b', found, uid, action, message, freezer, ignoreDupes)
  {
    hide Accepts, PostedOnce;
    var rest := found[1..];
    assert b'.subs[found[0]] == b1.subs[found[0]];
    forall i | 0 < i < |found| ensures found[i] == rest[i - 1] && found[i] in rest {
    }
    forall i | 0 <= i < |rest| ensures rest[i] in b.subs && rest[i] != found[0] {
      assert rest[i] in rest && rest[i] in b1.subs;
    }
    SameAccepted(b.subs, b1.subs, rest, uid, action, message, freezer);
  }

  lemma AheadGrows(s: Submission, low: int, high: int)
    requires Ahead(s, low) && low <= high
    ensures Ahead(s, high)
  {
  }

  function AcceptedIn(subs: map<int, Submission>, found: seq<int>, uid: UserId, action: Action, message: bool,
                      freezer: bool): nat
    requires forall i | 0 <= i < |found| :: found[i] in subs
  {
    if found == [] then 0
    else (if Accepts(subs[found[0]], uid, action, message, freezer) then 1 else 0)
         + AcceptedIn(subs, found[1..], uid, action, message, freezer)
  }

  lemma {:induction false} SameAccepted(subs: map<int, Submission>, subs': map<int, Submission>, found: seq<int>,
                                        uid: UserId, action: Action, message: bool, freezer: bool)
    requires forall i | 0 <= i < |found| :: found[i] in subs && found[i] in subs' && subs[found[i]] == subs'[found[i]]
    ensures AcceptedIn(subs, found, uid, action, message, freezer) == AcceptedIn(subs', found, uid, action, message,
                                                                                 freezer)
  {
    hide Accepts;
    if found != [] { SameAccepted(subs, subs', found[1..], uid, action, message, freezer); }
  }

  // ---------------------------------------------------------------- what a batch leaves behind

  /** The listed submissions that take the post, as the list has them. */
  function Taking(subs: map<int, Submission>, sids: seq<int>, uid: UserId, action: Action, message: bool, freezer: bool)
    : seq<int>
  {
    if sids == [] then []
    else
      (if sids[0] in subs && Accepts(subs[sids[0]], uid, action, message, freezer) then [sids[0]] else [])
      + Taking(subs, sids[1..], uid, action, message, freezer)
  }

  lemma {:induction false} TakingAre(subs: map<int, Submission>, sids: seq<int>, uid: UserId, action: Action,
                                     message: bool, freezer: bool, sid: int)
    ensures sid in Taking(subs, sids, uid, action, message, freezer)
       <==> sid in sids && sid in subs && Accepts(subs[sid], uid, action, message, freezer)
  {
    hide Accepts;
    if sids != [] { TakingAre(subs, sids[1..], uid, action, message, freezer, sid); }
  }

  lemma {:induction false} TakingCounts(subs: map<int, Submission>, found: seq<int>, uid: UserId, action: Action,
                                        message: bool, freezer: bool)
    requires forall i | 0 <= i < |found| :: found[i] in subs
    requires forall i, j | 0 <= i < j < |found| :: found[i] != found[j]
    ensures var taking := Taking(subs, found, uid, action, message, freezer);
            && |taking| == AcceptedIn(subs, found, uid, action, message, freezer)
            && forall i, j | 0 <= i < j < |taking| :: taking[i] != taking[j]
  {
    hide Accepts;
    if found != [] {
      var rest := found[1..];
      TakingCounts(subs, rest, uid, action, message, freezer);
      assert found[0] !in rest;
      TakingAre(subs, rest, uid, action, message, freezer, found[0]);
    }
  }

  lemma SameTaking(subs: map<int, Submission>, found: seq<int>, sids: seq<int>, uid: UserId, action: Action,
                   message: bool, freezer: bool)
    requires (forall i | 0 <= i < |found| :: found[i] in sids) && forall i | 0 <= i < |sids| :: sids[i] in found
    ensures Ids(Taking(subs, found, uid, action, message, freezer))
         == Ids(Taking(subs, sids, uid, action, message, freezer))
  {
    hide Accepts, Taking;
    var a, b := Taking(subs, found, uid, action, message, freezer), Taking(subs, sids, uid, action, message, freezer);
    forall i | 0 <= i < |a| ensures a[i] in b {
      TakingAre(subs, found, uid, action, message, freezer, a[i]);
      TakingAre(subs, sids, uid, action, message, freezer, a[i]);
    }
    forall i | 0 <= i < |b| ensures b[i] in a {
      TakingAre(subs, found, uid, action, message, freezer, b[i]);
      TakingAre(subs, sids, uid, action, message, freezer, b[i]);
    }
    IdsWithin(a, b);
    IdsWithin(b, a);
  }

  lemma PlaceOf<T>(s: seq<T>, x: T) returns (i: nat)
    requires x in s
    ensures i < |s| && s[i] == x
  {
    i :| i < |s| && s[i] == x;
  }

  /** Each listed submission has taken one accepted post, or was skipped; the others are as before. */
  ghost predicate PostedToEach(subs: map<int, Submission>, after: map<int, Submission>, sids: seq<int>, uid: UserId,
                               action: Action, message: bool, freezer: bool, ignoreDupes: bool)
  {
    && after.Keys == subs.Keys && (forall sid | sid in subs && sid !in sids :: after[sid] == subs[sid])
    && (forall i | 0 <= i < |sids| :: sids[i] in subs &&
          if Accepts(subs[sids[i]], uid, action, message, freezer)
          then PostedOnce(subs[sids[i]], after[sids[i]], uid, action, message, freezer)
          else after[sids[i]] == subs[sids[i]] && ignoreDupes)
  }

  /**
   A request that is not received leaves every submission as it was. One that is received has given
   exactly one accepted post to each listed submission that takes it, skipped the others as duplicates,
   left every submission that is not listed alone, and counted the submissions posted to.
   */
  lemma BatchIsCommitted(subs: map<int, Submission>, uid: UserId, sids: seq<int>, found: seq<int>, action: Action,
                         message: bool, ignoreDupes: bool, freezer: bool, clock: nat -> int)
    requires SearchResult(found, sids, subs) && Monotone(clock)
    requires forall i | 0 <= i < |sids| && sids[i] in subs :: Ahead(subs[sids[i]], clock(0))
    ensures var (reply, after) := ReplyTo(subs, uid, sids, found, action, message, ignoreDupes, freezer, clock);
            if !reply.Received? then after == subs
            else
              && PostedToEach(subs, after, sids, uid, action, message, freezer, ignoreDupes)
              && reply.posted == |Ids(Taking(subs, sids, uid, action, message, freezer))|
  {
    hide PostAll, PostedToEach, Ahead, Taking, AllowedActions, MessageActions, Guard, FirstProblem;
    if AllListed(sids, subs) && AllIn(sids, found) {
      var b := Batch(subs, 0, 0);
      BatchStopsAtFirstProblem(b, found, uid, action, freezer, ignoreDupes, clock);
      ProblemsAreReplies(subs, found, uid, action, freezer, ignoreDupes);
      if PostAll(b, found, uid, action, freezer, ignoreDupes, clock).Through?
         && action in AllowedActions && (action in MessageActions ==> message) {
        ThroughIsCommitted(subs, uid, sids, found, action, message, ignoreDupes, freezer, clock);
      }
    }
  }

  lemma ThroughIsCommitted(subs: map<int, Submission>, uid: UserId, sids: seq<int>, found: seq<int>, action: Action,
                           message: bool, ignoreDupes: bool, freezer: bool, clock: nat -> int)
    requires SearchResult(found, sids, subs) && Monotone(clock) && AllListed(sids, subs) && AllIn(sids, found)
    requires forall i | 0 <= i < |sids| && sids[i] in subs :: Ahead(subs[sids[i]], clock(0))
    requires action in AllowedActions && (action in MessageActions ==> message)
    requires PostAll(Batch(subs, 0, 0), found, uid, action, freezer, ignoreDupes, clock).Through?
    ensures var b := PostAll(Batch(subs, 0, 0), found, uid, action, freezer, ignoreDupes, clock).value;
            && PostedToEach(subs, b.subs, sids, uid, action, message, freezer, ignoreDupes)
            && b.posted == |Ids(Taking(subs, sids, uid, action, message, freezer))|
  {
    hide PostAll, Accepts, PostedToEach, Ahead, Taking, AllowedActions, MessageActions, SteppedOnce;
    var b := Batch(subs, 0, 0);
    forall i | 0 <= i < |found| ensures Listed(found[i], subs) && Ahead(subs[found[i]], clock(0)) {
      var k := PlaceOf(sids, found[i]);
    }
    BatchIsSteps(b, found, uid, action, message, freezer, ignoreDupes, clock);
    var b' := PostAll(b, found, uid, action, freezer, ignoreDupes, clock).value;
    ListedWereStepped(b, b', sids, found, uid, action, message, freezer, ignoreDupes);
    TakingCounts(subs, found, uid, action, message, freezer);
    DistinctCount(Taking(subs, found, uid, action, message, freezer));
    SameTaking(subs, found, sids, uid, action, message, freezer);
  }

  lemma ListedWereStepped(b: Batch, b': Batch, sids: seq<int>, found: seq<int>, uid: UserId, action: Action,
                          message: bool, freezer: bool, ignoreDupes: bool)
    requires SteppedOnce(b, b', found, uid, action, message, freezer, ignoreDupes) && b.posted == 0
    requires (forall i | 0 <= i < |found| :: found[i] in sids) && forall i | 0 <= i < |sids| :: sids[i] in found
    ensures PostedToEach(b.subs, b'.subs, sids, uid, action, message, freezer, ignoreDupes)
    ensures forall i | 0 <= i < |found| :: found[i] in b.subs
    ensures b'.posted == AcceptedIn(b.subs, found, uid, action, message, freezer)
  {
    hide Accepts, PostedOnce, AcceptedIn;
    forall i | 0 <= i < |sids|
      ensures sids[i] in b.subs &&
              if Accepts(b.subs[sids[i]], uid, action, message, freezer)
              then PostedOnce(b.subs[sids[i]], b'.subs[sids[i]], uid, action, message, freezer)
              else b'.subs[sids[i]] == b.subs[sids[i]] && ignoreDupes
    {
      var k := PlaceOf(found, sids[i]);
    }
    forall sid | sid in b.subs && sid !in sids ensures b'.subs[sid] == b.subs[sid] {
      if sid in found { var k := PlaceOf(found, sid); assert false; }
    }
  }
}
