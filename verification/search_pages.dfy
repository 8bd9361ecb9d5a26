/**
 Order, pages and totals of a search (database/submission_search_query.go,
 database/searchmonster.go). The rank of a row is the place of its sort value among all values of
 that column, or None for NULL; equal ranks are values the database holds equal.
 */
module SearchPages {
  import opened Sql
  import opened SearchQuery
  import SearchFilter
  import SearchJoins

  /** A matching row: a submission with no uuid, or a legacy game with the submission id -1. */
  datatype Key = Key(rank: Option<int>, submission: int, uuid: Option<int>)

  /** NULL comes first in ascending and last in descending order. */
  predicate Less(a: Option<int>, b: Option<int>) {
    b.Some? && (a.None? || a.value < b.value)
  }

  /** ORDER BY sort_value ASC|DESC, submission_id ASC, game_uuid ASC. */
  predicate Precedes(a: Key, b: Key, ascending: bool) {
    if a.rank != b.rank then (if ascending then Less(a.rank, b.rank) else Less(b.rank, a.rank))
    else if a.submission != b.submission then a.submission < b.submission
    else Less(a.uuid, b.uuid)
  }

  lemma PrecedesIsStrictTotal(a: Key, b: Key, c: Key, ascending: bool)
    ensures !Precedes(a, a, ascending)
    ensures a != b ==> (Precedes(a, b, ascending) <==> !Precedes(b, a, ascending))
    ensures Precedes(a, b, ascending) && Precedes(b, c, ascending) ==> Precedes(a, c, ascending)
  {
  }

  ghost predicate Ordered(s: seq<Key>, ascending: bool) {
    forall i, j | 0 <= i < j < |s| :: Precedes(s[i], s[j], ascending)
  }

  /** There is only one way to order a set of rows, so every page query sees the same sequence. */
  lemma {:induction false} OrderIsUnique(s: seq<Key>, t: seq<Key>, ascending: bool)
    requires Ordered(s, ascending) && Ordered(t, ascending) && forall k :: k in s <==> k in t
    ensures s == t
  {
    assert t != [] ==> t[0] in t;
    if s != [] {
      assert s[0] in t;
      var i :| 0 <= i < |t| && t[i] == s[0];
      assert t[0] in s;
      var j :| 0 <= j < |s| && s[j] == t[0];
      PrecedesIsStrictTotal(s[0], t[0], s[0], ascending);
      assert s[0] == t[0];
      TailsAgree(s, t, ascending);
      OrderIsUnique(s[1..], t[1..], ascending);
    }
  }

  lemma TailsAgree(s: seq<Key>, t: seq<Key>, ascending: bool)
    requires s != [] && t != [] && s[0] == t[0]
    requires Ordered(s, ascending) && Ordered(t, ascending) && forall k :: k in s <==> k in t
    ensures forall k :: k in s[1..] <==> k in t[1..]
    ensures Ordered(s[1..], ascending) && Ordered(t[1..], ascending)
  {
    HeadOnlyFirst(s, ascending);
    HeadOnlyFirst(t, ascending);
    forall k ensures k in s[1..] <==> k in t[1..] {
      assert s == [s[0]] + s[1..] && t == [t[0]] + t[1..];
      assert k in s <==> k == s[0] || k in s[1..];
      assert k in t <==> k == t[0] || k in t[1..];
    }
  }

  lemma HeadOnlyFirst(s: seq<Key>, ascending: bool)
    requires s != [] && Ordered(s, ascending)
    ensures s[0] !in s[1..]
  {
    forall i | 0 <= i < |s[1..]| ensures s[1..][i] != s[0] {
      assert Precedes(s[0], s[i + 1], ascending);
    }
  }

  // ---------------------------------------------------------------- pages

  /** LIMIT limit OFFSET offset. */
  function Slice(s: seq<Key>, limit: nat, offset: nat): seq<Key> {
    if offset >= |s| then [] else if offset + limit >= |s| then s[offset..] else s[offset..offset + limit]
  }

  function Page(s: seq<Key>, limit: nat, page: nat): seq<Key>
    requires page >= 1
  {
    Slice(s, limit, (page - 1) * limit)
  }

  /** The first n pages, one after the other. */
  function Pages(s: seq<Key>, limit: nat, n: nat): seq<Key> {
    if n == 0 then [] else Pages(s, limit, n - 1) + Page(s, limit, n)
  }

  /** The first n pages together are the first so many entries: nothing is left out, repeated or out of order. */
  lemma {:induction false} PagesAreThePrefix(s: seq<Key>, limit: nat, n: nat)
    ensures n * limit >= 0
    ensures Pages(s, limit, n) == if n * limit <= |s| then s[..n * limit] else s
  {
    if n > 0 {
      PagesAreThePrefix(s, limit, n - 1);
      assert n * limit == (n - 1) * limit + limit;
    }
  }

  /** The page a place of the listing falls on. */
  function PageOf(i: nat, limit: nat): (p: nat)
    requires limit >= 1
    ensures p >= 1 && (p - 1) * limit <= i < (p - 1) * limit + limit
    decreases i
  {
    if i < limit then 1
    else
      var rest := PageOf(i - limit, limit);
      assert rest * limit == (rest - 1) * limit + limit;
      rest + 1
  }

  lemma {:induction false} PagesAreApart(p: nat, q: nat, limit: nat)
    requires p < q
    ensures p * limit + limit <= q * limit
    decreases q
  {
    assert q * limit == (q - 1) * limit + limit;
    if p < q - 1 { PagesAreApart(p, q - 1, limit); }
  }

  lemma OnlyOnePage(i: nat, limit: nat, p: nat, q: nat)
    requires p * limit <= i < p * limit + limit && q * limit <= i < q * limit + limit
    ensures p == q
  {
    if p < q { PagesAreApart(p, q, limit); }
    if q < p { PagesAreApart(q, p, limit); }
  }

  lemma OnPage(s: seq<Key>, limit: nat, p: nat, k: Key) returns (i: nat)
    requires p >= 1 && k in Page(s, limit, p)
    ensures i < |s| && s[i] == k && (p - 1) * limit <= i < (p - 1) * limit + limit
  {
    var start := (p - 1) * limit;
    var m :| 0 <= m < |Page(s, limit, p)| && Page(s, limit, p)[m] == k;
    i := start + m;
  }

  lemma AtPage(s: seq<Key>, limit: nat, i: nat)
    requires limit >= 1 && i < |s|
    ensures s[i] in Page(s, limit, PageOf(i, limit))
  {
    var start := (PageOf(i, limit) - 1) * limit;
    assert Slice(s, limit, start)[i - start] == s[i];
  }

  /** Every entry of a listing is on exactly one page. */
  lemma EachKeyOnOnePage(s: seq<Key>, ascending: bool, limit: nat, k: Key)
    requires Ordered(s, ascending) && limit >= 1
    ensures k in s <==> exists p: nat :: p >= 1 && k in Page(s, limit, p)
    ensures forall p: nat, q: nat | p >= 1 && q >= 1 && k in Page(s, limit, p) && k in Page(s, limit, q) :: p == q
  {
    hide Page;
    if k in s {
      var i :| 0 <= i < |s| && s[i] == k;
      AtPage(s, limit, i);
    }
    if p: nat :| p >= 1 && k in Page(s, limit, p) {
      var i := OnPage(s, limit, p, k);
    }
    forall p: nat, q: nat | p >= 1 && q >= 1 && k in Page(s, limit, p) && k in Page(s, limit, q) ensures p == q {
      var a := OnPage(s, limit, p, k);
      var b := OnPage(s, limit, q, k);
      SamePlace(s, ascending, a, b);
      OnlyOnePage(a, limit, p - 1, q - 1);
    }
  }

  lemma SamePlace(s: seq<Key>, ascending: bool, i: nat, j: nat)
    requires Ordered(s, ascending) && i < |s| && j < |s| && s[i] == s[j]
    ensures i == j
  {
    PrecedesIsStrictTotal(s[i], s[j], s[i], ascending);
  }

  // ---------------------------------------------------------------- sorting

  function Inserted(s: seq<Key>, k: Key, ascending: bool): seq<Key> {
    if s == [] || Precedes(k, s[0], ascending) then [k] + s else [s[0]] + Inserted(s[1..], k, ascending)
  }

  function Sorted(s: seq<Key>, ascending: bool): seq<Key> {
    if s == [] then [] else Inserted(Sorted(s[1..], ascending), s[0], ascending)
  }

  ghost predicate AllApart(s: seq<Key>) {
    forall i, j | 0 <= i < j < |s| :: s[i] != s[j]
  }

  lemma OrderedFrom(s: seq<Key>, k: Key, ascending: bool)
    requires Ordered(s, ascending) && forall i | 0 <= i < |s| :: Precedes(k, s[i], ascending)
    ensures Ordered([k] + s, ascending)
  {
  }

  lemma {:induction false} InsertedIs(s: seq<Key>, k: Key, ascending: bool)
    requires Ordered(s, ascending) && k !in s
    ensures Ordered(Inserted(s, k, ascending), ascending)
    ensures |Inserted(s, k, ascending)| == |s| + 1
    ensures forall x :: x in Inserted(s, k, ascending) <==> x in s || x == k
  {
    hide Precedes;
    if s != [] && !Precedes(k, s[0], ascending) {
      var rest := s[1..];
      assert forall x :: x in s <==> x == s[0] || x in rest;
      InsertedIs(rest, k, ascending);
      PrecedesIsStrictTotal(s[0], k, k, ascending);
      assert forall x | x in rest :: Precedes(s[0], x, ascending);
      var more := Inserted(rest, k, ascending);
      assert forall i | 0 <= i < |more| :: more[i] in more;
      OrderedFrom(more, s[0], ascending);
    } else {
      forall i | 0 <= i < |s| ensures Precedes(k, s[i], ascending) {
        PrecedesIsStrictTotal(k, s[0], s[i], ascending);
      }
      OrderedFrom(s, k, ascending);
    }
  }

  lemma {:induction false} SortedIs(s: seq<Key>, ascending: bool)
    requires AllApart(s)
    ensures Ordered(Sorted(s, ascending), ascending) && |Sorted(s, ascending)| == |s|
    ensures forall x :: x in Sorted(s, ascending) <==> x in s
  {
    if s != [] {
      hide Ordered, Inserted;
      SortedIs(s[1..], ascending);
      assert s[0] !in s[1..];
      InsertedIs(Sorted(s[1..], ascending), s[0], ascending);
      assert forall x :: x in s <==> x == s[0] || x in s[1..];
    } else {
      assert Ordered([], ascending);
    }
  }

  // ---------------------------------------------------------------- the rows and their keys

  /**
   How the database shows rows: the joined row that a submission is grouped to when it has several,
   and the places of sort values and of uuids in the order of their columns.
   */
  datatype Shown = Shown(pick: Row -> Joined, rank: Value -> Option<int>, uuid: Value -> int)

  function IdOf(s: Row): int {
    if Cell(s, "id").Num? then Cell(s, "id").n else 0
  }

  function LegacySort(order: Order, l: Row): Value {
    match order
    case Created => Cell(l, "date_added")
    case Updated => Cell(l, "date_modified")
    case Size => Num(42)
    case Title => Cell(l, "title")
    case Platform => Cell(l, "platform")
    case Library => Cell(l, "library")
  }

  function SubmissionKey(shown: Shown, order: Order, s: Row): Key {
    Key(shown.rank(Get(shown.pick(s), SortColumn(order))), IdOf(s), None)
  }

  function LegacyKey(shown: Shown, order: Order, l: Row): Key {
    Key(shown.rank(LegacySort(order, l)), -1, Some(shown.uuid(Cell(l, "uuid"))))
  }

  /** The submission id is a primary key, and the uuid of a legacy game is unique. */
  ghost predicate WellKeyed(db: Db, shown: Shown) {
    && (forall i, j | 0 <= i < j < |db.submissions| :: IdOf(db.submissions[i]) != IdOf(db.submissions[j]))
    && (forall i, j | 0 <= i < j < |db.legacy| ::
          shown.uuid(Cell(db.legacy[i], "uuid")) != shown.uuid(Cell(db.legacy[j], "uuid")))
  }

  ghost function Filtered(rows: seq<Row>, p: Row -> bool): seq<Row> {
    if rows == [] then []
    else Filtered(rows[..|rows| - 1], p) + if p(rows[|rows| - 1]) then [rows[|rows| - 1]] else []
  }

  lemma {:induction false} FilteredIs(rows: seq<Row>, p: Row -> bool)
    ensures forall r :: r in Filtered(rows, p) <==> r in rows && p(r)
  {
    if rows != [] {
      var rest, last := rows[..|rows| - 1], rows[|rows| - 1];
      FilteredIs(rest, p);
      assert rows == rest + [last];
    }
  }

  lemma {:induction false} FilteredAlike(rows: seq<Row>, p: Row -> bool, q: Row -> bool)
    requires forall r :: p(r) <==> q(r)
    ensures Filtered(rows, p) == Filtered(rows, q)
  {
    if rows != [] { FilteredAlike(rows[..|rows| - 1], p, q); }
  }

  ghost predicate Apart(rows: seq<Row>, key: Row -> int) {
    forall i, j | 0 <= i < j < |rows| :: key(rows[i]) != key(rows[j])
  }

  lemma {:induction false} FilteredApart(rows: seq<Row>, p: Row -> bool, key: Row -> int)
    requires Apart(rows, key)
    ensures Apart(Filtered(rows, p), key)
  {
    if rows != [] {
      var rest, last := rows[..|rows| - 1], rows[|rows| - 1];
      FilteredApart(rest, p, key);
      FilteredIs(rest, p);
      var some := Filtered(rest, p);
      forall i | 0 <= i < |some| ensures key(some[i]) != key(last) {
        assert some[i] in rest;
      }
    }
  }

  ghost function Selected(q: Core, args: seq<Value>, db: Db): seq<Row>
    requires |args| == CoreHoles(q)
  {
    Filtered(db.submissions, s => SelectsSubmission(q, args, db, s))
  }

  ghost function SelectedLegacy(q: Core, args: seq<Value>, db: Db): seq<Row>
    requires |args| == CoreHoles(q)
  {
    Filtered(db.legacy, l => SelectsLegacy(q, args, db, l))
  }

  ghost function Keys(shown: Shown, order: Order, submissions: seq<Row>, legacy: seq<Row>): seq<Key> {
    seq(|submissions|, i requires 0 <= i < |submissions| => SubmissionKey(shown, order, submissions[i]))
    + seq(|legacy|, i requires 0 <= i < |legacy| => LegacyKey(shown, order, legacy[i]))
  }

  lemma KeysAreApart(shown: Shown, order: Order, submissions: seq<Row>, legacy: seq<Row>)
    requires Apart(submissions, s => IdOf(s)) && Apart(legacy, l => shown.uuid(Cell(l, "uuid")))
    ensures AllApart(Keys(shown, order, submissions, legacy))
  {
  }

  /** What the page query matches, in its order, before LIMIT and OFFSET. */
  ghost function Listing(q: PageQuery, args: seq<Value>, db: Db, shown: Shown): seq<Key>
    requires |args| == CoreHoles(q.core)
  {
    Sorted(Keys(shown, q.order, Selected(q.core, args, db), SelectedLegacy(q.core, args, db)), q.ascending)
  }

  /** The number of submissions and legacy games the filter means. */
  ghost function Found(f: SearchFilter.Filter, uid: int, db: Db): nat {
    |Filtered(db.submissions, s => FindsSubmission(f, uid, db, s))| + |Filtered(db.legacy, l => FindsLegacy(f, l))|
  }

  lemma SelectedAreMeant(q: Core, args: seq<Value>, f: SearchFilter.Filter, uid: int, db: Db)
    requires FindsTheMeant(q, args, f, uid)
    ensures |Selected(q, args, db)| + |SelectedLegacy(q, args, db)| == Found(f, uid, db)
    ensures forall s :: s in Selected(q, args, db) <==> s in db.submissions && FindsSubmission(f, uid, db, s)
    ensures forall l :: l in SelectedLegacy(q, args, db) <==> l in db.legacy && FindsLegacy(f, l)
  {
    hide SelectsSubmission, SelectsLegacy, FindsSubmission, FindsLegacy;
    FilteredAlike(db.submissions, s => SelectsSubmission(q, args, db, s), s => FindsSubmission(f, uid, db, s));
    FilteredAlike(db.legacy, l => SelectsLegacy(q, args, db, l), l => FindsLegacy(f, l));
    FilteredIs(db.submissions, s => FindsSubmission(f, uid, db, s));
    FilteredIs(db.legacy, l => FindsLegacy(f, l));
  }

  lemma SelectedAreApart(q: Core, args: seq<Value>, db: Db, shown: Shown)
    requires |args| == CoreHoles(q) && WellKeyed(db, shown)
    ensures Apart(Selected(q, args, db), s => IdOf(s))
    ensures Apart(SelectedLegacy(q, args, db), l => shown.uuid(Cell(l, "uuid")))
  {
    hide SelectsSubmission, SelectsLegacy, Filtered;
    FilteredApart(db.submissions, s => SelectsSubmission(q, args, db, s), s => IdOf(s));
    FilteredApart(db.legacy, l => SelectsLegacy(q, args, db, l), l => shown.uuid(Cell(l, "uuid")));
  }

  /**
   The listing has exactly one entry for each submission and each legacy game that the filter means,
   and no other; it is ordered, so by OrderIsUnique it is the only ordered listing of them.
   */
  lemma ListingIsOfTheMeant(q: PageQuery, args: seq<Value>, f: SearchFilter.Filter, uid: int, db: Db, shown: Shown)
    requires FindsTheMeant(q.core, args, f, uid) && WellKeyed(db, shown)
    ensures Ordered(Listing(q, args, db, shown), q.ascending)
    ensures |Listing(q, args, db, shown)| == Found(f, uid, db)
    ensures var listing := Listing(q, args, db, shown);
            && (forall i | 0 <= i < |db.submissions| ::
                  SubmissionKey(shown, q.order, db.submissions[i]) in listing <==>
                      FindsSubmission(f, uid, db, db.submissions[i]))
            && (forall i | 0 <= i < |db.legacy| ::
                  LegacyKey(shown, q.order, db.legacy[i]) in listing <==> FindsLegacy(f, db.legacy[i]))
  {
    hide FindsTheMeant, FindsSubmission, FindsLegacy, Selected, SelectedLegacy, Sorted, Ordered, Found, AllApart, Keys;
    HolesMatch(q.core, args, f, uid);
    var some, legacy := Selected(q.core, args, db), SelectedLegacy(q.core, args, db);
    SelectedAreMeant(q.core, args, f, uid, db);
    SelectedAreApart(q.core, args, db, shown);
    KeysAreApart(shown, q.order, some, legacy);
    SortedIs(Keys(shown, q.order, some, legacy), q.ascending);
    KeysOf(shown, q.order, some, legacy, db);
  }

  lemma HolesMatch(q: Core, args: seq<Value>, f: SearchFilter.Filter, uid: int)
    requires FindsTheMeant(q, args, f, uid)
    ensures |args| == CoreHoles(q)
  {
  }

  lemma KeysOf(shown: Shown, order: Order, some: seq<Row>, legacy: seq<Row>, db: Db)
    requires WellKeyed(db, shown)
    requires (forall s | s in some :: s in db.submissions) && (forall l | l in legacy :: l in db.legacy)
    ensures |Keys(shown, order, some, legacy)| == |some| + |legacy|
    ensures forall i | 0 <= i < |db.submissions| ::
              SubmissionKey(shown, order, db.submissions[i]) in Keys(shown, order, some, legacy) <==>
                  db.submissions[i] in some
    ensures forall i | 0 <= i < |db.legacy| ::
              LegacyKey(shown, order, db.legacy[i]) in Keys(shown, order, some, legacy) <==> db.legacy[i] in legacy
  {
    var keys := Keys(shown, order, some, legacy);
    forall i | 0 <= i < |db.submissions|
      ensures SubmissionKey(shown, order, db.submissions[i]) in keys <==> db.submissions[i] in some
    {
      var s := db.submissions[i];
      if m :| 0 <= m < |some| && some[m] == s { assert keys[m] == SubmissionKey(shown, order, s); }
      if m :| 0 <= m < |keys| && keys[m] == SubmissionKey(shown, order, s) {
        assert m < |some| && some[m] in some;
        assert some[m] == s;
      }
    }
    forall i | 0 <= i < |db.legacy| ensures LegacyKey(shown, order, db.legacy[i]) in keys <==> db.legacy[i] in legacy {
      var l := db.legacy[i];
      if m :| 0 <= m < |legacy| && legacy[m] == l { assert keys[|some| + m] == LegacyKey(shown, order, l); }
      if m :| 0 <= m < |keys| && keys[m] == LegacyKey(shown, order, l) {
        assert m >= |some| && legacy[m - |some|] in legacy;
        assert legacy[m - |some|] == l;
      }
    }
  }

  ghost predicate OnPages(listing: seq<Key>, limit: nat, k: Key, found: bool) {
    && (found <==> exists p: nat :: p >= 1 && k in Page(listing, limit, p))
    && (forall p: nat, r: nat | p >= 1 && r >= 1 && k in Page(listing, limit, p) && k in Page(listing, limit, r) ::
        p == r)
  }

  /** Each submission and legacy game that the filter means is on exactly one page, and no other is on any. */
  lemma EachMatchOnOnePage(q: PageQuery, args: seq<Value>, f: SearchFilter.Filter, uid: int, db: Db, shown: Shown,
                           limit: nat)
    requires FindsTheMeant(q.core, args, f, uid) && WellKeyed(db, shown) && limit >= 1
    ensures var listing := Listing(q, args, db, shown);
            && (forall i | 0 <= i < |db.submissions| ::
                  OnPages(listing, limit, SubmissionKey(shown, q.order, db.submissions[i]),
                          FindsSubmission(f, uid, db, db.submissions[i])))
            && (forall i | 0 <= i < |db.legacy| ::
                  OnPages(listing, limit, LegacyKey(shown, q.order, db.legacy[i]), FindsLegacy(f, db.legacy[i])))
  {
    hide FindsTheMeant, FindsSubmission, FindsLegacy, Page, Listing, SubmissionKey, LegacyKey, Ordered, Found, OnPages;
    HolesMatch(q.core, args, f, uid);
    ListingIsOfTheMeant(q, args, f, uid, db, shown);
    var listing := Listing(q, args, db, shown);
    forall k ensures OnPages(listing, limit, k, k in listing) {
      EntryOnPages(listing, q.ascending, limit, k);
    }
  }

  lemma EntryOnPages(s: seq<Key>, ascending: bool, limit: nat, k: Key)
    requires Ordered(s, ascending) && limit >= 1
    ensures OnPages(s, limit, k, k in s)
  {
    hide Page;
    EachKeyOnOnePage(s, ascending, limit, k);
  }

  // ---------------------------------------------------------------- the pages of one search

  lemma MeansIgnoresPage(f: SearchFilter.Filter, page: Option<int>, uid: int, env: Joined, subs: Subscriptions)
    ensures SearchFilter.Means(f.(page := page), uid, env, subs) <==> SearchFilter.Means(f, uid, env, subs)
    ensures SearchFilter.LegacyMeans(f.(page := page), env) <==> SearchFilter.LegacyMeans(f, env)
  {
    hide SearchFilter.MeansTexts, SearchFilter.LegacyTexts, SearchFilter.MeansList, SearchFilter.MeansOneOf;
    hide SearchFilter.MeansReviewers, SearchFilter.MeansReviewer, Get;
  }

  lemma FindsIgnoresPage(f: SearchFilter.Filter, page: Option<int>, uid: int, db: Db, s: Row)
    ensures FindsSubmission(f.(page := page), uid, db, s) <==> FindsSubmission(f, uid, db, s)
    ensures FindsLegacy(f.(page := page), s) <==> FindsLegacy(f, s)
  {
    hide SearchFilter.Means, SearchFilter.LegacyMeans, SearchJoins.Yields, Commented;
    var f' := f.(page := page);
    forall env ensures SearchFilter.Means(f', uid, env, db.subs) <==> SearchFilter.Means(f, uid, env, db.subs) {
      MeansIgnoresPage(f, page, uid, env, db.subs);
    }
    MeansIgnoresPage(f, page, uid, map[Legacy := s], db.subs);
  }

  /** Requests for different pages of one search see the same listing, so that their pages fit together. */
  lemma PageNumberKeepsListing(q: PageQuery, args: seq<Value>, q': PageQuery, args': seq<Value>, f: SearchFilter.Filter,
                               page: Option<int>, uid: int, db: Db, shown: Shown)
    requires FindsTheMeant(q.core, args, f, uid) && FindsTheMeant(q'.core, args', f.(page := page), uid)
    requires q'.order == q.order && q'.ascending == q.ascending
    ensures Listing(q', args', db, shown) == Listing(q, args, db, shown)
  {
    hide FindsSubmission, FindsLegacy, SelectsSubmission, SelectsLegacy;
    var f' := f.(page := page);
    forall r ensures SelectsSubmission(q'.core, args', db, r) <==> SelectsSubmission(q.core, args, db, r)
      ensures SelectsLegacy(q'.core, args', db, r) <==> SelectsLegacy(q.core, args, db, r)
    {
      FindsIgnoresPage(f, page, uid, db, r);
    }
    FilteredAlike(db.submissions, s => SelectsSubmission(q'.core, args', db, s),
                  s => SelectsSubmission(q.core, args, db, s));
    FilteredAlike(db.legacy, l => SelectsLegacy(q'.core, args', db, l), l => SelectsLegacy(q.core, args, db, l));
  }

  /** What a built query lists, page by page. */
  ghost function ListingOf(f: SearchFilter.Filter, uid: int, b: Built, db: Db, shown: Shown): seq<Key>
    requires Builds(f, uid, b)
  {
    Listing(b.page, b.countArgs, db, shown)
  }

  /** What the requests for pages 1, 2, … of one search return, one after the other. */
  ghost function Returned(f: SearchFilter.Filter, uid: int, bs: seq<Built>, db: Db, shown: Shown): seq<Key>
    requires forall i | 0 <= i < |bs| :: Builds(f.(page := Some(i + 1)), uid, bs[i])
  {
    if bs == [] then []
    else
      var b := bs[|bs| - 1];
      Returned(f, uid, bs[..|bs| - 1], db, shown)
      + Page(ListingOf(f.(page := Some(|bs|)), uid, b, db, shown), PageSize(f), PageNumber(f.(page := Some(|bs|))))
  }

  /** Page by page, a search returns its listing from the beginning: as many entries as the pages hold, or all. */
  lemma {:induction false} PagesOfSearch(f: SearchFilter.Filter, uid: int, bs: seq<Built>, db: Db, shown: Shown)
    requires forall i | 0 <= i < |bs| :: Builds(f.(page := Some(i + 1)), uid, bs[i])
    requires bs != []
    ensures |bs| * PageSize(f) >= 0
    ensures var listing := ListingOf(f.(page := Some(1)), uid, bs[0], db, shown);
            Returned(f, uid, bs, db, shown)
              == if |bs| * PageSize(f) <= |listing| then listing[..|bs| * PageSize(f)] else listing
  {
    hide Builds, ListingOf;
    BuildsSize(f, uid, bs[0]);
    var listing := ListingOf(f.(page := Some(1)), uid, bs[0], db, shown);
    ReturnedArePages(f, uid, bs, db, shown);
    PagesAreThePrefix(listing, PageSize(f), |bs|);
  }

  lemma BuildsSize(f: SearchFilter.Filter, uid: int, b: Built)
    requires Builds(f.(page := Some(1)), uid, b)
    ensures PageSize(f) >= 1
  {
  }

  lemma {:induction false} ReturnedArePages(f: SearchFilter.Filter, uid: int, bs: seq<Built>, db: Db, shown: Shown)
    requires forall i | 0 <= i < |bs| :: Builds(f.(page := Some(i + 1)), uid, bs[i])
    requires bs != [] && PageSize(f) >= 1
    ensures Returned(f, uid, bs, db, shown)
         == Pages(ListingOf(f.(page := Some(1)), uid, bs[0], db, shown), PageSize(f), |bs|)
  {
    hide Builds, ListingOf;
    var rest, b := bs[..|bs| - 1], bs[|bs| - 1];
    SameListing(f, uid, bs[0], 1, b, |bs|, db, shown);
    if rest != [] {
      ReturnedArePages(f, uid, rest, db, shown);
    } else {
      assert Returned(f, uid, rest, db, shown) == [];
    }
  }

  lemma SameListing(f: SearchFilter.Filter, uid: int, a: Built, p: int, b: Built, q: int, db: Db, shown: Shown)
    requires Builds(f.(page := Some(p)), uid, a) && Builds(f.(page := Some(q)), uid, b)
    ensures ListingOf(f.(page := Some(q)), uid, b, db, shown) == ListingOf(f.(page := Some(p)), uid, a, db, shown)
  {
    hide FindsTheMeant, Listing;
    PageNumberKeepsListing(a.page, a.countArgs, b.page, b.countArgs, f.(page := Some(p)), Some(q), uid, db, shown);
  }

  // ---------------------------------------------------------------- what a listing is sorted by

  /** Submissions sort by this column of their joined row, legacy games by this value. */
  ghost predicate SortsBy(order: Order, column: Column, legacy: Row -> Value) {
    forall shown: Shown, r: Row ::
      && SubmissionKey(shown, order, r).rank == shown.rank(Get(shown.pick(r), column))
      && LegacyKey(shown, order, r).rank == shown.rank(legacy(r))
  }

  /** `a` comes before `b`: by rank, NULL being the smallest, then by submission id and uuid, both ascending. */
  predicate Sooner(a: Key, b: Key, ascending: bool) {
    var low, high := if ascending then a.rank else b.rank, if ascending then b.rank else a.rank;
    || (low.None? && high.Some?)
    || (low.Some? && high.Some? && low.value < high.value)
    || (low == high && a.submission < b.submission)
    || (low == high && a.submission == b.submission && b.uuid.Some? && (a.uuid.None? || a.uuid.value < b.uuid.value))
  }

  /**
   What the entries of a search's listing are sorted by, for each choice and for none; ascending only
   if asked for. Each entry comes before all later ones.
   */
  lemma ListingIsSortedBy(f: SearchFilter.Filter, uid: int, b: Built, db: Db, shown: Shown)
    requires Builds(f, uid, b) && WellKeyed(db, shown)
    ensures var listing := ListingOf(f, uid, b, db, shown);
            forall i, j | 0 <= i < j < |listing| :: Sooner(listing[i], listing[j], f.ascDesc == Some("asc"))
    ensures var o := b.page.order;
            && (f.orderBy == Some("uploaded") ==>
                  SortsBy(o, Column(OldestFile, "created_at"), (l: Row) => Cell(l, "date_added")))
            && (f.orderBy == Some("size") ==> SortsBy(o, Column(NewestFile, "size"), (l: Row) => Num(42)))
            && (f.orderBy == Some("title") ==> SortsBy(o, Column(Meta, "title"), (l: Row) => Cell(l, "title")))
            && (f.orderBy == Some("platform") ==> SortsBy(o, Column(Meta, "platform"), (l: Row) => Cell(l, "platform")))
            && (f.orderBy == Some("library") ==> SortsBy(o, Column(Meta, "library"), (l: Row) => Cell(l, "library")))
            && (f.orderBy == Some("updated") || f.orderBy == None ==>
                  SortsBy(o, Column(NewestComment, "created_at"), (l: Row) => Cell(l, "date_modified")))
  {
    hide FindsTheMeant, Listing, Found, FindsSubmission, FindsLegacy;
    ListingIsOfTheMeant(b.page, b.countArgs, f, uid, db, shown);
    var listing := ListingOf(f, uid, b, db, shown);
    forall i, j | 0 <= i < j < |listing| ensures Sooner(listing[i], listing[j], f.ascDesc == Some("asc")) {
      assert Precedes(listing[i], listing[j], b.page.ascending);
    }
    OrdersSortBy();
  }

  lemma OrdersSortBy()
    ensures SortsBy(Created, Column(OldestFile, "created_at"), (l: Row) => Cell(l, "date_added"))
    ensures SortsBy(Updated, Column(NewestComment, "created_at"), (l: Row) => Cell(l, "date_modified"))
    ensures SortsBy(Size, Column(NewestFile, "size"), (l: Row) => Num(42))
    ensures SortsBy(Title, Column(Meta, "title"), (l: Row) => Cell(l, "title"))
    ensures SortsBy(Platform, Column(Meta, "platform"), (l: Row) => Cell(l, "platform"))
    ensures SortsBy(Library, Column(Meta, "library"), (l: Row) => Cell(l, "library"))
  {
  }

  // ---------------------------------------------------------------- the total

  /** COUNT(DISTINCT submission.id) over the joined rows, plus the number of legacy games. */
  ghost function CountQuery(q: Core, args: seq<Value>, db: Db): nat
    requires |args| == CoreHoles(q)
  {
    |DistinctIds(Selected(q, args, db))| + |SelectedLegacy(q, args, db)|
  }

  ghost function DistinctIds(rows: seq<Row>): set<int> {
    set s | s in rows :: IdOf(s)
  }

  /** Distinct ids count submissions because the id is a primary key. */
  lemma {:induction false} IdsCountRows(rows: seq<Row>)
    requires Apart(rows, s => IdOf(s))
    ensures |DistinctIds(rows)| == |rows|
  {
    if rows != [] {
      var rest, last := rows[..|rows| - 1], rows[|rows| - 1];
      assert rows == rest + [last];
      IdsCountRows(rest);
      assert DistinctIds(rows) == DistinctIds(rest) + {IdOf(last)};
      assert IdOf(last) !in DistinctIds(rest);
    }
  }

  /** The count query, which joins less than the page query, counts exactly the rows that the filter means. */
  lemma CountsAgree(q: Core, args: seq<Value>, f: SearchFilter.Filter, uid: int, db: Db, shown: Shown)
    requires FindsTheMeant(q, args, f, uid) && WellKeyed(db, shown)
    ensures CountQuery(q, args, db) == Found(f, uid, db)
  {
    hide FindsTheMeant, FindsSubmission, FindsLegacy, Selected, SelectedLegacy, Found, DistinctIds;
    HolesMatch(q, args, f, uid);
    SelectedAreMeant(q, args, f, uid, db);
    SelectedAreApart(q, args, db, shown);
    IdsCountRows(Selected(q, args, db));
  }

  /**
   The second half of SearchSubmissions, on one snapshot: `page` is what the page query returns,
   with `window` repeated in each of its rows, and `counted` what the count query would answer. The
   total is the number of rows the filter means, whether it is taken from the window count, from an
   empty first page, or from a count after a page past the end.
   */
  method SearchSubmissions(b: Built, f: SearchFilter.Filter, uid: int, ghost db: Db, ghost shown: Shown,
                           page: seq<Key>, window: nat, counted: nat)
    returns (rows: seq<Key>, total: nat)
    requires Builds(f, uid, b) && b.offset >= 0 && WellKeyed(db, shown)
    requires page == Slice(Listing(b.page, b.countArgs, db, shown), b.limit, b.offset)
    requires b.page.counted ==> window == |Listing(b.page, b.countArgs, db, shown)|
    requires counted == CountQuery(b.count, b.countArgs, db)
    ensures PageSize(f) >= 1 && PageNumber(f) >= 1
    ensures rows == Page(ListingOf(f, uid, b, db, shown), PageSize(f), PageNumber(f))
    ensures total == Found(f, uid, db)
  {
    hide FindsTheMeant, Listing, Found, Ordered, FindsSubmission, FindsLegacy, CountQuery, SubmissionKey, LegacyKey;
    HolesMatch(b.page.core, b.countArgs, f, uid);
    HolesMatch(b.count, b.countArgs, f, uid);
    CountsAgree(b.count, b.countArgs, f, uid, db, shown);
    ListingIsOfTheMeant(b.page, b.countArgs, f, uid, db, shown);
    var counter := 0;
    rows := [];
    for i := 0 to |page|
      invariant rows == page[..i] && (i > 0 && b.page.counted ==> counter == window)
    {
      rows := rows + [page[i]];
      if b.page.counted {
        counter := window;
      }
    }
    if |rows| == 0 && b.offset == 0 {
      return rows, 0;
    }
    if b.page.counted && |rows| > 0 {
      return rows, counter;
    }
    return rows, counted;
  }
}
