/**
 What one more comment or file does to the reviewer sets of a submission. The queries of
 ReviewHistory look at the whole history; these lemmas turn each write into a set update.
 */
module ReviewRoles {
  import opened ReviewHistory

  datatype Roles = Roles(
    testing: set<UserId>, verification: set<UserId>, requested: set<UserId>,
    approved: set<UserId>, verified: set<UserId>)
  {
    /** The four roles that count as taking part in a review exclude one another. */
    ghost predicate Disjoint() {
      && testing !! verification && testing !! approved && testing !! verified
      && verification !! approved && verification !! verified
      && approved !! verified
    }

    predicate Alone(user: UserId) {
      AtMostOne(user in testing, user in verification, user in approved, user in verified)
    }
  }

  predicate AtMostOne(testing: bool, verification: bool, approved: bool, verified: bool) {
    && !(testing && verification) && !(testing && approved) && !(testing && verified)
    && !(verification && approved) && !(verification && verified) && !(approved && verified)
  }

  lemma DisjointByUser(r: Roles)
    ensures r.Disjoint() <==> forall u :: r.Alone(u)
  {
    if forall u :: r.Alone(u) {
      forall u ensures AtMostOne(u in r.testing, u in r.verification, u in r.approved, u in r.verified) {
        assert r.Alone(u);
      }
    } else {
      var u :| !r.Alone(u);
      assert r.Disjoint() ==> AtMostOne(u in r.testing, u in r.verification, u in r.approved, u in r.verified);
    }
  }

  function RolesOf(h: History): Roles {
    Roles(Testing(h), Verification(h), Requested(h), Approved(h), Verified(h))
  }

  /** One comment's effect on the roles when it is the newest of its history. */
  function Updated(r: Roles, author: UserId, action: Action, hasFile: bool): Roles {
    if author == VALIDATOR then r
    else
      match action
      case AssignTesting => r.(testing := r.testing + {author})
      case UnassignTesting => r.(testing := r.testing - {author})
      case AssignVerification => r.(verification := r.verification + {author})
      case UnassignVerification => r.(verification := r.verification - {author})
      case RequestChanges =>
        r.(requested := r.requested + {author}, approved := r.approved - {author}, verified := r.verified - {author})
      case UploadFile => r.(requested := r.requested - {author})
      case Approve =>
        r.(requested := r.requested - {author}, approved := if hasFile then r.approved + {author} else r.approved)
      case Verify =>
        r.(requested := r.requested - {author}, verified := if hasFile then r.verified + {author} else r.verified)
      case _ => r
  }

  function FreshCommentId(rows: seq<Comment>): (id: int)
    ensures forall c | c in rows :: c.id < id
  {
    if rows == [] then 1
    else
      var rest, last := FreshCommentId(rows[..|rows| - 1]), rows[|rows| - 1];
      assert rows == rows[..|rows| - 1] + [last];
      if rest <= last.id then last.id + 1 else rest
  }

  function FreshFileId(rows: seq<File>): (id: int)
    ensures forall f | f in rows :: f.id < id
  {
    if rows == [] then 1
    else
      var rest, last := FreshFileId(rows[..|rows| - 1]), rows[|rows| - 1];
      assert rows == rows[..|rows| - 1] + [last];
      if rest <= last.id then last.id + 1 else rest
  }

  /** StoreComment: one new live row with the next id. */
  function Said(h: History, author: UserId, action: Action, at: int): History {
    h.(comments := h.comments + [Comment(FreshCommentId(h.comments), author, action, at, true)])
  }

  /** StoreSubmissionFile: one new live row with the next id. */
  function Stored(h: History, uploader: UserId, at: int): History {
    h.(files := h.files + [File(FreshFileId(h.files), uploader, at, true)])
  }

  ghost predicate LaterThanComments(h: History, at: int) {
    forall c | c in h.comments :: c.at < at
  }

  ghost predicate LaterThanFiles(h: History, at: int) {
    forall f | f in h.files :: f.at < at
  }

  lemma SaidKeepsWellFormed(h: History, author: UserId, action: Action, at: int)
    requires WellFormed(h)
    ensures WellFormed(Said(h, author, action, at))
  {
    var id := FreshCommentId(h.comments);
    assert forall i | 0 <= i < |h.comments| :: h.comments[i] in h.comments && h.comments[i].id < id;
  }

  lemma StoredKeepsWellFormed(h: History, uploader: UserId, at: int)
    requires WellFormed(h)
    ensures WellFormed(Stored(h, uploader, at))
  {
    var id := FreshFileId(h.files);
    assert forall i | 0 <= i < |h.files| :: h.files[i] in h.files && h.files[i].id < id;
  }

  // ---------------------------------------------------------------- ranking with one more row

  lemma LatestWithOneMore(rows: seq<Comment>, c: Comment, keep: Comment -> bool)
    ensures Latest(rows + [c], keep) ==
            var rest := Latest(rows, keep);
            if !keep(c) then rest else if rest.Some? && Before(c, rest.value) then rest else Some(c)
  {
    assert (rows + [c])[..|rows|] == rows;
  }

  lemma RankedWithOneMore(rows: seq<Comment>, c: Comment, user: UserId, named: set<Action>)
    requires c.live
    requires By(c, user, named) ==> forall d | d in rows :: Before(d, c)
    ensures Ranked(rows + [c], user, named) == if By(c, user, named) then Some(c) else Ranked(rows, user, named)
  {
    LatestWithOneMore(rows, c, (x: Comment) => x.live && x.author == user && x.author != VALIDATOR &&
                      x.action in named);
  }

  /** Appending the newest relevant comment toggles its author, and nobody else. */
  lemma EnabledWithOneMore(rows: seq<Comment>, c: Comment, on: set<Action>, off: set<Action>, cut: Cut)
    requires c.live && on !! off
    requires c.author != VALIDATOR && c.action in on + off ==> forall d | d in rows :: Before(d, c)
    ensures EnabledUsers(rows + [c], on, off, cut) ==
            var before := EnabledUsers(rows, on, off, cut);
            if c.author == VALIDATOR then before
            else if c.action in on then (if cut.Passes(c) then before + {c.author} else before)
            else if c.action in off then before - {c.author}
            else before
  {
    var before := EnabledUsers(rows, on, off, cut);
    forall u ensures Enabled(rows + [c], u, on, off, cut) <==>
        if !By(c, u, on + off) then u in before
        else if c.action in on then (if cut.Passes(c) then true else u in before)
        else false
    {
      RankedWithOneMore(rows, c, u, on);
      RankedWithOneMore(rows, c, u, off);
    }
  }

  lemma CutIsNewestFile(h: History, at: int)
    requires LaterThanFiles(h, at)
    ensures forall c: Comment | at <= c.at :: After(NewestFile(h.files)).Passes(c) <==> NewestFile(h.files).Some?
  {
  }

  /** A comment newer than everything before it updates the roles; bot and system remarks need not be newer. */
  lemma SaidUpdatesRoles(h: History, author: UserId, action: Action, at: int)
    requires LaterThanFiles(h, at)
    requires author != VALIDATOR && action != SystemNote ==> LaterThanComments(h, at)
    ensures RolesOf(Said(h, author, action, at)) == Updated(RolesOf(h), author, action, NewestFile(h.files).Some?)
    ensures NewestFile(Said(h, author, action, at).files) == NewestFile(h.files)
  {
    hide EnabledUsers, Enabled, Latest, NewestFile;
    var c := Comment(FreshCommentId(h.comments), author, action, at, true);
    var cut := After(NewestFile(h.files));
    EnabledWithOneMore(h.comments, c, {AssignTesting}, {UnassignTesting}, Everything);
    EnabledWithOneMore(h.comments, c, {AssignVerification}, {UnassignVerification}, Everything);
    EnabledWithOneMore(h.comments, c, {RequestChanges}, {Approve, Verify, UploadFile}, Everything);
    EnabledWithOneMore(h.comments, c, {Approve}, {RequestChanges}, cut);
    EnabledWithOneMore(h.comments, c, {Verify}, {RequestChanges}, cut);
    CutIsNewestFile(h, at);
  }

  /** A new version makes every earlier approval and verification lapse, and nothing else. */
  lemma StoredClearsReviews(h: History, uploader: UserId, at: int)
    requires LaterThanFiles(h, at) && LaterThanComments(h, at)
    ensures RolesOf(Stored(h, uploader, at)) == RolesOf(h).(approved := {}, verified := {})
    ensures NewestFile(Stored(h, uploader, at).files) == Some(File(FreshFileId(h.files), uploader, at, true))
  {
    var f := File(FreshFileId(h.files), uploader, at, true);
    var files := h.files + [f];
    assert files[..|files| - 1] == h.files;
    assert NewestFile(files) == Some(f);
    var cut := After(Some(f));
    forall u, on: set<Action> ensures RankedAfter(h.comments, u, on, cut).None? {
    }
  }

  // ---------------------------------------------------------------- actions present

  lemma SaidAddsAction(h: History, author: UserId, action: Action, at: int)
    ensures forall a :: Has(Said(h, author, action, at), a) <==> a == action || Has(h, a)
    ensures LiveActions(Said(h, author, action, at)) == LiveActions(h) + {action}
  {
    var h' := Said(h, author, action, at);
    var c := Comment(FreshCommentId(h.comments), author, action, at, true);
    forall a ensures Has(h', a) <==> a == action || Has(h, a) {
      assert c in h'.comments;
      if Has(h, a) {
        var d :| d in h.comments && d.live && d.action == a;
        assert d in h'.comments;
      }
      if Has(h', a) {
        var d :| d in h'.comments && d.live && d.action == a;
      }
    }
    HasIsLive(h);
    HasIsLive(h');
  }

  lemma HasIsLive(h: History)
    ensures forall a :: a in LiveActions(h) <==> Has(h, a)
  {
  }
}
