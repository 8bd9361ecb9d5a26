/**
 A submission's history (its comment and file rows) and the cache row derived from it by
 database/caching.go, with an independent reading of the same history: a chronological replay.
 */
module ReviewHistory {
  datatype Option<+T> = None | Some(value: T)

  type UserId = int

  const VALIDATOR: UserId := 810112564787675166
  const SYSTEM: UserId := 844246603102945333

  datatype Action =
    | Remark | Approve | RequestChanges | MarkAdded | UploadFile | EditMeta | Verify
    | AssignTesting | UnassignTesting | AssignVerification | UnassignVerification | SystemNote | Reject

  datatype Comment = Comment(id: int, author: UserId, action: Action, at: int, live: bool)
  datatype File = File(id: int, uploader: UserId, at: int, live: bool)
  datatype History = History(files: seq<File>, comments: seq<Comment>)

  /** The derived row. An SQL NULL id list is the empty set. */
  datatype Row = Row(
    newestFile: Option<int>, oldestFile: Option<int>, newestComment: Option<int>,
    testing: set<UserId>, verification: set<UserId>, requested: set<UserId>,
    approved: set<UserId>, verified: set<UserId>,
    bot: Option<Action>, actions: set<Action>)

  ghost predicate WellFormed(h: History) {
    && (forall i, j | 0 <= i < j < |h.comments| :: h.comments[i].id != h.comments[j].id)
    && (forall i, j | 0 <= i < j < |h.files| :: h.files[i].id != h.files[j].id)
  }

  // ---------------------------------------------------------------- the queries

  /** `created_at`, then `id`. */
  predicate Before(a: Comment, b: Comment) {
    a.at < b.at || (a.at == b.at && a.id < b.id)
  }

  predicate FileBefore(a: File, b: File) {
    a.at < b.at || (a.at == b.at && a.id < b.id)
  }

  /** ORDER BY created_at DESC, id DESC, first row, among the rows `keep` selects. */
  function Latest(rows: seq<Comment>, keep: Comment -> bool): (r: Option<Comment>)
    ensures r.None? ==> forall c | c in rows :: !keep(c)
    ensures r.Some? ==> r.value in rows && keep(r.value) && forall c | c in rows && keep(c) :: !Before(r.value, c)
  {
    if rows == [] then None
    else
      var last, rest := rows[|rows| - 1], Latest(rows[..|rows| - 1], keep);
      assert rows == rows[..|rows| - 1] + [last];
      if !keep(last) then rest
      else if rest.Some? && Before(last, rest.value) then rest
      else Some(last)
  }

  function NewestFile(files: seq<File>): (r: Option<File>)
    ensures r.None? ==> forall f | f in files :: !f.live
    ensures r.Some? ==> r.value in files && r.value.live && forall f | f in files && f.live :: !FileBefore(r.value, f)
  {
    if files == [] then None
    else
      var last, rest := files[|files| - 1], NewestFile(files[..|files| - 1]);
      assert files == files[..|files| - 1] + [last];
      if !last.live then rest
      else if rest.Some? && FileBefore(last, rest.value) then rest
      else Some(last)
  }

  function OldestFile(files: seq<File>): (r: Option<File>)
    ensures r.None? ==> forall f | f in files :: !f.live
    ensures r.Some? ==> r.value in files && r.value.live && forall f | f in files && f.live :: !FileBefore(f, r.value)
  {
    if files == [] then None
    else
      var last, rest := files[|files| - 1], OldestFile(files[..|files| - 1]);
      assert files == files[..|files| - 1] + [last];
      if !last.live then rest
      else if rest.Some? && FileBefore(rest.value, last) then rest
      else Some(last)
  }

  /** Whether only rows after the newest live file count, and when that file was stored. */
  datatype Cut = Everything | After(newest: Option<File>) {
    /** `ranked_comment.created_at > last_file.created_at`; a comparison with NULL selects nothing. */
    predicate Passes(c: Comment) {
      Everything? || (newest.Some? && c.at > newest.value.at)
    }
  }

  /** The row with rn = 1: one user's latest live comment with one of the named actions. */
  function Ranked(rows: seq<Comment>, user: UserId, named: set<Action>): Option<Comment> {
    Latest(rows, (c: Comment) => c.live && c.author == user && c.author != VALIDATOR && c.action in named)
  }

  /** The cut is applied to the ranked row, after ranking. */
  function RankedAfter(rows: seq<Comment>, user: UserId, named: set<Action>, cut: Cut): Option<Comment> {
    var r := Ranked(rows, user, named);
    if r.Some? && cut.Passes(r.value) then r else None
  }

  predicate Enabled(rows: seq<Comment>, user: UserId, on: set<Action>, off: set<Action>, cut: Cut) {
    var enabler := RankedAfter(rows, user, on, cut);
    var disabler := RankedAfter(rows, user, off, cut);
    enabler.Some? && (disabler.None? || Before(disabler.value, enabler.value))
  }

  function EnabledUsers(rows: seq<Comment>, on: set<Action>, off: set<Action>, cut: Cut): (r: set<UserId>)
    ensures forall u :: u in r <==> Enabled(rows, u, on, off, cut)
  {
    var r := set c | c in rows && Enabled(rows, c.author, on, off, cut) :: c.author;
    assert forall u | Enabled(rows, u, on, off, cut) :: Ranked(rows, u, on).value.author == u;
    r
  }

  predicate Has(h: History, action: Action) {
    exists c | c in h.comments :: c.live && c.action == action
  }

  function LiveActions(h: History): set<Action> {
    set c | c in h.comments && c.live :: c.action
  }

  function BotAction(rows: seq<Comment>): Option<Action> {
    var r := Latest(rows, (c: Comment) => c.live && c.author == VALIDATOR);
    if r.Some? then Some(r.value.action) else None
  }

  function Id<T>(r: Option<T>, id: T -> int): Option<int> {
    if r.Some? then Some(id(r.value)) else None
  }

  /** The five id lists as the queries compute them, before any rejection suppresses them. */
  function Testing(h: History): set<UserId> {
    EnabledUsers(h.comments, {AssignTesting}, {UnassignTesting}, Everything)
  }

  function Verification(h: History): set<UserId> {
    EnabledUsers(h.comments, {AssignVerification}, {UnassignVerification}, Everything)
  }

  function Requested(h: History): set<UserId> {
    EnabledUsers(h.comments, {RequestChanges}, {Approve, Verify, UploadFile}, Everything)
  }

  function Approved(h: History): set<UserId> {
    EnabledUsers(h.comments, {Approve}, {RequestChanges}, After(NewestFile(h.files)))
  }

  function Verified(h: History): set<UserId> {
    EnabledUsers(h.comments, {Verify}, {RequestChanges}, After(NewestFile(h.files)))
  }

  /** UpdateSubmissionCacheTable: the whole row as a function of the live rows. */
  function Derive(h: History): Row {
    var newest := Id(NewestFile(h.files), (f: File) => f.id);
    var oldest := Id(OldestFile(h.files), (f: File) => f.id);
    var comment := Id(Latest(h.comments, (c: Comment) => c.live), (c: Comment) => c.id);
    if Reject in LiveActions(h) then
      Row(newest, oldest, comment, {}, {}, {}, {}, {}, BotAction(h.comments), {Reject})
    else
      Row(newest, oldest, comment, Testing(h), Verification(h), Requested(h), Approved(h), Verified(h),
          BotAction(h.comments), LiveActions(h))
  }

  // ---------------------------------------------------------------- the replay

  /** What a reader going through the comments one by one would have noted down so far. */
  datatype Notes = Notes(
    newestComment: Option<int>,
    testing: set<UserId>, verification: set<UserId>, requested: set<UserId>,
    approved: set<UserId>, verified: set<UserId>,
    bot: Option<Action>, actions: set<Action>)

  function Read(n: Notes, c: Comment, newest: Option<File>): Notes {
    var seen := n.(newestComment := Some(c.id), actions := n.actions + {c.action});
    var counts := newest.Some? && c.at > newest.value.at;
    if c.author == VALIDATOR then seen.(bot := Some(c.action))
    else
      match c.action
      case AssignTesting => seen.(testing := n.testing + {c.author})
      case UnassignTesting => seen.(testing := n.testing - {c.author})
      case AssignVerification => seen.(verification := n.verification + {c.author})
      case UnassignVerification => seen.(verification := n.verification - {c.author})
      case RequestChanges =>
        seen.(requested := n.requested + {c.author}, approved := n.approved - {c.author},
              verified := n.verified - {c.author})
      case UploadFile => seen.(requested := n.requested - {c.author})
      case Approve =>
        seen.(requested := n.requested - {c.author}, approved := if counts then n.approved + {c.author} else n.approved)
      case Verify =>
        seen.(requested := n.requested - {c.author}, verified := if counts then n.verified + {c.author} else n.verified)
      case _ => seen
  }

  function Replay(order: seq<Comment>, newest: Option<File>): Notes {
    if order == [] then Notes(None, {}, {}, {}, {}, {}, None, {})
    else Read(Replay(order[..|order| - 1], newest), order[|order| - 1], newest)
  }

  /** The row a replay arrives at; any live rejection suppresses every reviewer. */
  function ReplayedRow(order: seq<Comment>, files: seq<File>): Row {
    var newest := NewestFile(files);
    var n := Replay(order, newest);
    var newestId := Id(newest, (f: File) => f.id);
    var oldestId := Id(OldestFile(files), (f: File) => f.id);
    if Reject in n.actions then Row(newestId, oldestId, n.newestComment, {}, {}, {}, {}, {}, n.bot, {Reject})
    else Row(newestId, oldestId, n.newestComment, n.testing, n.verification, n.requested, n.approved, n.verified, n.bot,
             n.actions)
  }

  /** `order` lists exactly the live rows, oldest first, ties broken by id. */
  ghost predicate Chronological(order: seq<Comment>, rows: seq<Comment>) {
    && (forall i, j | 0 <= i < j < |order| :: Before(order[i], order[j]))
    && (forall c :: c in order <==> c in rows && c.live)
  }

  // ---------------------------------------------------------------- one set of the replay

  /** One reviewer set on its own: an `on` action past the cut adds its author, an `off` action removes it. */
  function Toggled(order: seq<Comment>, on: set<Action>, off: set<Action>, cut: Cut): set<UserId> {
    if order == [] then {}
    else
      var c, before := order[|order| - 1], Toggled(order[..|order| - 1], on, off, cut);
      if c.author == VALIDATOR then before
      else if c.action in on then (if cut.Passes(c) then before + {c.author} else before)
      else if c.action in off then before - {c.author}
      else before
  }

  lemma {:induction false} ReplayToggles(order: seq<Comment>, newest: Option<File>)
    ensures var n := Replay(order, newest);
            && n.testing == Toggled(order, {AssignTesting}, {UnassignTesting}, Everything)
            && n.verification == Toggled(order, {AssignVerification}, {UnassignVerification}, Everything)
            && n.requested == Toggled(order, {RequestChanges}, {Approve, Verify, UploadFile}, Everything)
            && n.approved == Toggled(order, {Approve}, {RequestChanges}, After(newest))
            && n.verified == Toggled(order, {Verify}, {RequestChanges}, After(newest))
  {
    if order != [] { ReplayToggles(order[..|order| - 1], newest); }
  }

  ghost predicate By(c: Comment, user: UserId, named: set<Action>) {
    c.author == user && c.author != VALIDATOR && c.action in named
  }

  /** Some enabling comment past the cut has no disabling comment of the same user after it. */
  ghost predicate LeftOn(order: seq<Comment>, user: UserId, on: set<Action>, off: set<Action>, cut: Cut) {
    exists i | 0 <= i < |order| ::
      By(order[i], user, on) && cut.Passes(order[i]) && forall j | i < j < |order| :: !By(order[j], user, off)
  }

  lemma {:induction false} ToggledMeansLeftOn(order: seq<Comment>, user: UserId, on: set<Action>, off: set<Action>,
                                              cut: Cut)
    requires on !! off
    ensures user in Toggled(order, on, off, cut) <==> LeftOn(order, user, on, off, cut)
  {
    if order != [] {
      var n := |order| - 1;
      var c, before := order[n], order[..n];
      ToggledMeansLeftOn(before, user, on, off, cut);
      if By(c, user, on) && cut.Passes(c) {
        assert LeftOn(order, user, on, off, cut);
      } else if By(c, user, off) {
        assert !LeftOn(order, user, on, off, cut);
      } else {
        if LeftOn(before, user, on, off, cut) {
          var i :| 0 <= i < n && By(before[i], user, on) && cut.Passes(before[i])
                   && forall j | i < j < n :: !By(before[j], user, off);
          assert By(order[i], user, on);
          assert forall j | i < j < |order| :: !By(order[j], user, off) by {
            forall j | i < j < |order| ensures !By(order[j], user, off) {
              if j < n { assert order[j] == before[j]; }
            }
          }
        }
        if LeftOn(order, user, on, off, cut) {
          var i :| 0 <= i < |order| && By(order[i], user, on) && cut.Passes(order[i])
                   && forall j | i < j < |order| :: !By(order[j], user, off);
          assert i < n && before[i] == order[i];
          assert forall j | i < j < n :: before[j] == order[j];
        }
      }
    }
  }

  lemma IndexOf(order: seq<Comment>, c: Comment) returns (i: nat)
    requires c in order
    ensures i < |order| && order[i] == c
  {
    i :| 0 <= i < |order| && order[i] == c;
  }

  /** The latest-enabler query finds whoever the chronological reading leaves switched on. */
  lemma EnabledMeansLeftOn(rows: seq<Comment>, order: seq<Comment>, user: UserId, on: set<Action>, off: set<Action>,
                           cut: Cut)
    requires Chronological(order, rows) && on !! off
    ensures Enabled(rows, user, on, off, cut) <==> LeftOn(order, user, on, off, cut)
  {
    var enabler, disabler := Ranked(rows, user, on), Ranked(rows, user, off);
    if Enabled(rows, user, on, off, cut) {
      var e := enabler.value;
      var i := IndexOf(order, e);
      forall j | i < j < |order| ensures !By(order[j], user, off) {
        assert order[j] in order;
        assert Before(order[i], order[j]);
      }
      assert By(order[i], user, on);
    }
    if LeftOn(order, user, on, off, cut) {
      var i :| 0 <= i < |order| && By(order[i], user, on) && cut.Passes(order[i])
               && forall j | i < j < |order| :: !By(order[j], user, off);
      assert order[i] in rows;
      assert enabler.Some? && !Before(enabler.value, order[i]);
      if disabler.Some? {
        var k := IndexOf(order, disabler.value);
        assert By(order[k], user, off);
        assert k < i;
        assert Before(order[k], order[i]);
      }
    }
  }

  lemma EnabledUsersAreToggled(rows: seq<Comment>, order: seq<Comment>, on: set<Action>, off: set<Action>, cut: Cut)
    requires Chronological(order, rows) && on !! off
    ensures EnabledUsers(rows, on, off, cut) == Toggled(order, on, off, cut)
  {
    forall u ensures u in EnabledUsers(rows, on, off, cut) <==> u in Toggled(order, on, off, cut) {
      EnabledMeansLeftOn(rows, order, u, on, off, cut);
      ToggledMeansLeftOn(order, u, on, off, cut);
    }
  }

  // ---------------------------------------------------------------- the rest of the row

  lemma {:induction false} ReplayActions(order: seq<Comment>, newest: Option<File>)
    ensures forall a :: a in Replay(order, newest).actions <==> exists c | c in order :: c.action == a
    ensures Replay(order, newest).newestComment == if order == [] then None else Some(order[|order| - 1].id)
  {
    if order != [] {
      var n := |order| - 1;
      var before := order[..n];
      ReplayActions(before, newest);
      assert Replay(order, newest).actions == Replay(before, newest).actions + {order[n].action};
      assert forall c :: c in order <==> c in before || c == order[n] by { assert order == before + [order[n]]; }
      hide Replay, Read;
    }
  }

  /** In chronological order the latest of the selected rows is the last one listed. */
  lemma {:induction false} ReplayBot(order: seq<Comment>, newest: Option<File>)
    ensures match Replay(order, newest).bot
            case None => forall c | c in order :: c.author != VALIDATOR
            case Some(a) => exists i | 0 <= i < |order| ::
                order[i].author == VALIDATOR && order[i].action == a && forall j | i < j < |order| ::
                    order[j].author != VALIDATOR
  {
    if order != [] {
      var n := |order| - 1;
      var before := order[..n];
      ReplayBot(before, newest);
      assert order == before + [order[n]];
      if order[n].author != VALIDATOR && Replay(before, newest).bot.Some? {
        var i :| 0 <= i < |before| && before[i].author == VALIDATOR &&
            before[i].action == Replay(before, newest).bot.value
                 && forall j | i < j < |before| :: before[j].author != VALIDATOR;
        assert order[i] == before[i];
        assert forall j | i < j < |order| :: order[j].author != VALIDATOR by {
          forall j | i < j < |order| ensures order[j].author != VALIDATOR {
            if j < n { assert order[j] == before[j]; }
          }
        }
      }
    }
  }

  lemma BotMatches(rows: seq<Comment>, order: seq<Comment>, newest: Option<File>)
    requires Chronological(order, rows)
    ensures BotAction(rows) == Replay(order, newest).bot
  {
    ReplayBot(order, newest);
    var keep := (c: Comment) => c.live && c.author == VALIDATOR;
    var bot := Replay(order, newest).bot;
    if bot.Some? {
      var i :| 0 <= i < |order| && order[i].author == VALIDATOR && order[i].action == bot.value
               && forall j | i < j < |order| :: order[j].author != VALIDATOR;
      assert order[i] in rows && keep(order[i]);
      assert !Before(Latest(rows, keep).value, order[i]);
      var k := IndexOf(order, Latest(rows, keep).value);
      assert k <= i;
    } else {
      assert forall c | c in rows && c.live :: c in order;
    }
  }

  lemma NewestCommentMatches(rows: seq<Comment>, order: seq<Comment>)
    requires Chronological(order, rows)
    ensures Latest(rows, (c: Comment) => c.live) == if order == [] then None else Some(order[|order| - 1])
  {
    var keep := (c: Comment) => c.live;
    if order != [] {
      var last := order[|order| - 1];
      assert last in rows && keep(last);
      assert !Before(Latest(rows, keep).value, last);
      var k := IndexOf(order, Latest(rows, keep).value);
    } else {
      assert forall c | c in rows && c.live :: c in order;
    }
  }

  /**
   Replay equivalence. For every history, the row the ranking queries derive is the row a
   chronological replay of the live comments arrives at: the five reviewer sets, the bot's
   verdict, the newest comment and the distinct actions.
   */
  lemma ReplayMatchesDerivation(h: History, order: seq<Comment>)
    requires Chronological(order, h.comments)
    ensures ReplayedRow(order, h.files) == Derive(h)
  {
    var newest := NewestFile(h.files);
    ReplayToggles(order, newest);
    EnabledUsersAreToggled(h.comments, order, {AssignTesting}, {UnassignTesting}, Everything);
    EnabledUsersAreToggled(h.comments, order, {AssignVerification}, {UnassignVerification}, Everything);
    EnabledUsersAreToggled(h.comments, order, {RequestChanges}, {Approve, Verify, UploadFile}, Everything);
    EnabledUsersAreToggled(h.comments, order, {Approve}, {RequestChanges}, After(newest));
    EnabledUsersAreToggled(h.comments, order, {Verify}, {RequestChanges}, After(newest));
    ReplayActions(order, newest);
    BotMatches(h.comments, order, newest);
    NewestCommentMatches(h.comments, order);
    assert LiveActions(h) == Replay(order, newest).actions;
  }

  // ---------------------------------------------------------------- a chronological order exists

  function Insert(order: seq<Comment>, c: Comment): seq<Comment> {
    if order == [] || Before(c, order[0]) then [c] + order else [order[0]] + Insert(order[1..], c)
  }

  function InOrder(rows: seq<Comment>): seq<Comment> {
    if rows == [] then []
    else if rows[0].live then Insert(InOrder(rows[1..]), rows[0])
    else InOrder(rows[1..])
  }

  lemma {:induction false} InsertKeepsOrder(order: seq<Comment>, c: Comment)
    requires forall i, j | 0 <= i < j < |order| :: Before(order[i], order[j])
    requires forall x | x in order :: x.id != c.id
    ensures var r := Insert(order, c);
            && (forall i, j | 0 <= i < j < |r| :: Before(r[i], r[j]))
            && (forall x :: x in r <==> x == c || x in order)
  {
    if order != [] && !Before(c, order[0]) {
      InsertKeepsOrder(order[1..], c);
      var rest := Insert(order[1..], c);
      forall x | x in rest ensures Before(order[0], x) {
        if x != c {
          var i := IndexOf(order[1..], x);
          assert order[i + 1] == x;
        } else {
          assert order[0] in order;
        }
      }
      assert order == [order[0]] + order[1..];
    }
  }

  lemma {:induction false} InOrderIsChronological(rows: seq<Comment>)
    requires forall i, j | 0 <= i < j < |rows| :: rows[i].id != rows[j].id
    ensures Chronological(InOrder(rows), rows)
  {
    if rows != [] {
      var rest := rows[1..];
      InOrderIsChronological(rest);
      forall x | x in InOrder(rest) ensures x.id != rows[0].id {
        var i := IndexOf(rest, x);
        assert rows[i + 1] == x;
      }
      if rows[0].live { InsertKeepsOrder(InOrder(rest), rows[0]); }
      assert rows == [rows[0]] + rest;
    }
  }

  /** Every history whose comment ids are distinct has a replay, and it gives the derived row. */
  lemma EveryHistoryReplays(h: History)
    requires WellFormed(h)
    ensures Chronological(InOrder(h.comments), h.comments)
    ensures ReplayedRow(InOrder(h.comments), h.files) == Derive(h)
  {
    InOrderIsChronological(h.comments);
    ReplayMatchesDerivation(h, InOrder(h.comments));
  }
}
