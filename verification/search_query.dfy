/**
 The page query and the count query of one search (database/searchmonster.go,
 database/submission_search_query.go): their parts, the order of their arguments, and the proof
 that both find exactly what the filter means.
 */
module SearchQuery {
  import opened Sql
  import opened SearchJoins
  import SearchText
  import opened SearchFilter

  // ---------------------------------------------------------------- the database

  datatype Comment = Comment(submission: int, text: string, live: bool)

  datatype Db = Db(tables: Tables, submissions: seq<Row>, legacy: seq<Row>, comments: seq<Comment>, subs: Subscriptions)

  function LowerChar(c: char): char {
    if 'A' <= c <= 'Z' then c - 'A' + 'a' else c
  }

  function Lower(s: string): string {
    seq(|s|, i requires 0 <= i < |s| => LowerChar(s[i]))
  }

  /** A live comment of the submission contains the text, ignoring case; wildcards mean nothing here. */
  ghost predicate Commented(db: Db, s: Row, arg: Value) {
    exists c | c in db.comments ::
      c.live && Cell(s, "id") == Num(c.submission) && arg.Text? && Contains(Lower(c.text), Lower(arg.s))
  }

  // ---------------------------------------------------------------- queries and their arguments

  /** What both queries share: the tables, whether comments are matched first, and the two WHERE lists. */
  datatype Core = Core(from: seq<Join>, comments: bool, filters: seq<Pred>, masterFilters: seq<Pred>)

  datatype Order = Created | Updated | Size | Title | Platform | Library

  /** ORDER BY, LIMIT ? and OFFSET ? follow the shared part. */
  datatype PageQuery = PageQuery(core: Core, order: Order, ascending: bool, counted: bool)

  function SortColumn(o: Order): Column {
    match o
    case Created => Column(OldestFile, "created_at")
    case Updated => Column(NewestComment, "created_at")
    case Size => Column(NewestFile, "size")
    case Title => Column(Meta, "title")
    case Platform => Column(Meta, "platform")
    case Library => Column(Meta, "library")
  }

  function CommentHoles(q: Core): nat {
    if q.comments then 1 else 0
  }

  /**
   Placeholders in the order of the text: the comment in FROM, the WHERE of the submissions, then that of
   the legacy games.
   */
  function CoreHoles(q: Core): nat {
    CommentHoles(q) + AllHoles(q.filters) + AllHoles(q.masterFilters)
  }

  ghost predicate SelectsSubmission(q: Core, args: seq<Value>, db: Db, s: Row)
    requires |args| == CoreHoles(q)
  {
    var from := CommentHoles(q);
    && (q.comments ==> Commented(db, s, args[0]))
    && Cell(s, "deleted_at") == Null
    && Selects(db.tables, q.from, s, q.filters, args[from..from + AllHoles(q.filters)], db.subs)
  }

  ghost predicate SelectsLegacy(q: Core, args: seq<Value>, db: Db, l: Row)
    requires |args| == CoreHoles(q)
  {
    Where(q.masterFilters, args[CommentHoles(q) + AllHoles(q.filters)..], map[Legacy := l], db.subs) == True
  }

  /** A query with its arguments: the page carries two more, the count exactly the shared ones. */
  datatype Built = Built(page: PageQuery, pageArgs: seq<Value>, count: Core, countArgs: seq<Value>, limit: int,
                         offset: int)

  // ---------------------------------------------------------------- what a search should find

  /** A live submission, with a matching comment if one is asked for, one of whose joined rows the filter means. */
  ghost predicate FindsSubmission(f: Filter, uid: int, db: Db, s: Row) {
    && Cell(s, "deleted_at") == Null
    && (f.comment.Some? ==> Commented(db, s, Text(f.comment.value)))
    && exists env: Joined :: Yields(db.tables, FULL, map[Submission := s], env) && Means(f, uid, env, db.subs)
  }

  ghost predicate FindsLegacy(f: Filter, l: Row) {
    LegacyMeans(f, map[Legacy := l])
  }

  const NO_TEXTS: Texts := Texts(None, None, None, None, None, None, None, None, None, None, None, None)

  /** Searching without a filter. */
  const ANYTHING: Filter := Filter(
    [], None, None, None, None, None, None, NO_TEXTS, None, None, None, None, None, None, [], [], None, None,
    NO_STATUSES, NO_STATUSES, None, NO_STATUSES, None, [], [], None, None, None, None, None, None, false, None, None,
    None)

  lemma AnythingMeansAll(uid: int)
    ensures Checked(ANYTHING)
    ensures forall env, subs :: Means(ANYTHING, uid, env, subs) && LegacyMeans(ANYTHING, env)
  {
    forall env, subs ensures Means(ANYTHING, uid, env, subs) && LegacyMeans(ANYTHING, env) {
      AnythingMeansThis(uid, env, subs);
    }
  }

  lemma AnythingMeansThis(uid: int, env: Joined, subs: Subscriptions)
    ensures Means(ANYTHING, uid, env, subs) && LegacyMeans(ANYTHING, env)
  {
    hide Get, Contained, Like, Contains;
    assert MeansIdentity(ANYTHING, env) && LegacyIdentity(ANYTHING, env);
    assert MeansTexts(TextColumns(NO_TEXTS), env) && LegacyTexts(TextColumns(NO_TEXTS), env);
    assert MeansContents(ANYTHING, env) && LegacyContents(ANYTHING, env);
    assert MeansHistory(ANYTHING, uid, env) && LegacyHistory(ANYTHING, env);
  }

  /** The filter the query works with. */
  function Effective(f: Option<Filter>): Filter {
    if f.Some? then Unzeroed(f.value) else ANYTHING
  }

  /** A page has a hundred rows unless the filter says otherwise, and it is the first one. */
  function PageSize(f: Filter): int {
    if f.resultsPerPage.Some? then f.resultsPerPage.value else 100
  }

  function PageNumber(f: Filter): int {
    if f.page.Some? then f.page.value else 1
  }

  function OrderOf(f: Filter): Order {
    if f.orderBy == Some("uploaded") then Created
    else if f.orderBy == Some("size") then Size
    else if f.orderBy == Some("title") then Title
    else if f.orderBy == Some("platform") then Platform
    else if f.orderBy == Some("library") then Library
    else Updated
  }

  /** The arguments shared by both queries: the comment before the ordinary ones. */
  function SharedArgs(f: Filter, c: Compiled): seq<Value> {
    (if f.comment.Some? then [Text(f.comment.value)] else []) + c.data + c.masterData
  }

  function CoreOf(f: Filter, c: Compiled, mentioned: set<Alias>): Core {
    Core(Kept(FULL, Needed(mentioned)), f.comment.Some?, c.filters, c.masterFilters)
  }

  /** The right conditions with the right arguments in the right places. */
  ghost predicate FindsTheMeant(q: Core, args: seq<Value>, f: Filter, uid: int) {
    && |args| == CoreHoles(q)
    && (forall db, s :: SelectsSubmission(q, args, db, s) <==> FindsSubmission(f, uid, db, s))
    && (forall db, l :: SelectsLegacy(q, args, db, l) <==> FindsLegacy(f, l))
  }

  /**
   Both queries find what the filter means. The page query's last two arguments are its limit and
   offset: they make it show the page asked for, each page of so many rows.
   */
  ghost predicate Builds(f: Filter, uid: int, b: Built) {
    && FindsTheMeant(b.count, b.countArgs, f, uid) && FindsTheMeant(b.page.core, b.countArgs, f, uid)
    && b.pageArgs == b.countArgs + [Num(b.limit), Num(b.offset)]
    && b.limit == PageSize(f) && 1 <= b.limit <= 1000
    && PageNumber(f) >= 1 && b.offset == (PageNumber(f) - 1) * b.limit
    && b.page.order == OrderOf(f) && b.page.ascending == (f.ascDesc == Some("asc"))
  }

  lemma SharedArgsInPlace(f: Filter, c: Compiled, mentioned: set<Alias>)
    requires Consistent(c)
    ensures var q, args := CoreOf(f, c, mentioned), SharedArgs(f, c);
            && |args| == CoreHoles(q)
            && (q.comments ==> args[0] == Text(f.comment.value))
            && args[CommentHoles(q)..CommentHoles(q) + AllHoles(q.filters)] == c.data
            && args[CommentHoles(q) + AllHoles(q.filters)..] == c.masterData
  {
  }

  lemma CoreFindsOne(f: Filter, uid: int, c: Compiled, mentioned: set<Alias>, db: Db, s: Row)
    requires Consistent(c) && AllMentions(c.filters) <= mentioned + {Submission} && Legacy !in mentioned
    requires forall env, subs :: Takes(c, env, subs) <==> Means(f, uid, env, subs)
    ensures |SharedArgs(f, c)| == CoreHoles(CoreOf(f, c, mentioned))
    ensures SelectsSubmission(CoreOf(f, c, mentioned), SharedArgs(f, c), db, s) <==> FindsSubmission(f, uid, db, s)
  {
    hide Kept, Needed, Where, Yields, Commented, Means, SharedArgs;
    SharedArgsInPlace(f, c, mentioned);
    PruningKeepsSelection(db.tables, mentioned, s, c.filters, c.data, db.subs);
    assert forall env :: Where(c.filters, c.data, env, db.subs) == True <==> Means(f, uid, env, db.subs) by {
      forall env ensures Where(c.filters, c.data, env, db.subs) == True <==> Means(f, uid, env, db.subs) {
        assert Takes(c, env, db.subs) <==> Means(f, uid, env, db.subs);
      }
    }
  }

  lemma CoreFindsTheMeant(f: Filter, uid: int, c: Compiled, mentioned: set<Alias>)
    requires Consistent(c) && AllMentions(c.filters) <= mentioned + {Submission} && Legacy !in mentioned
    requires forall env, subs :: Takes(c, env, subs) <==> Means(f, uid, env, subs)
    requires forall env, subs :: TakesLegacy(c, env, subs) <==> LegacyMeans(f, env)
    ensures FindsTheMeant(CoreOf(f, c, mentioned), SharedArgs(f, c), f, uid)
  {
    hide Kept, Needed, Where, SelectsSubmission, FindsSubmission, Takes, Means, LegacyMeans, SharedArgs;
    SharedArgsInPlace(f, c, mentioned);
    var q, args := CoreOf(f, c, mentioned), SharedArgs(f, c);
    forall db, s ensures SelectsSubmission(q, args, db, s) <==> FindsSubmission(f, uid, db, s) {
      CoreFindsOne(f, uid, c, mentioned, db, s);
    }
    forall db: Db, l: Row ensures SelectsLegacy(q, args, db, l) <==> FindsLegacy(f, l) {
      assert TakesLegacy(c, map[Legacy := l], db.subs) <==> LegacyMeans(f, map[Legacy := l]);
    }
  }

  /**
   The first half of SearchSubmissions: validation, compilation, and both queries. The count query
   joins less than the page query and finds the same submissions and legacy games; the page's last
   two arguments are its limit and offset.
   */
  method BuildQueries(filter: Option<Filter>, uid: int) returns (r: Option<Built>)
    ensures r.None? <==> filter.Some? && !Checked(Effective(filter))
    ensures filter.Some? ==> Cleans(filter.value, Effective(filter))
    ensures r.Some? ==>
              && Builds(Effective(filter), uid, r.value)
              && SortColumn(r.value.page.order).alias in Before(r.value.page.core.from)
    ensures filter.None? ==> r.Some? && r.value.limit == 100 && r.value.offset == 0
  {
    hide Cleans, Takes, TakesLegacy, Consistent, Means, LegacyMeans, Unzeroed, FindsTheMeant, SharedArgs, Needed, Kept;
    var f := ANYTHING;
    var compiled := EMPTY;
    AnythingMeansAll(uid);
    EmptyTakesAll();
    if filter.Some? {
      UnzeroedCleans(filter.value);
      var validated := Validate(filter.value);
      if validated.None? { return None; }
      f := validated.value;
      compiled := Compile(f, uid);
    }
    var limit := if f.resultsPerPage.Some? then f.resultsPerPage.value else 100;
    var offset := if f.page.Some? then (f.page.value - 1) * limit else 0;
    PageIsNatural(f, limit, offset);
    var order := OrderOf(f);
    var predicates := SearchText.RenderAll(compiled.filters);
    var expressions := Expressions(predicates, order);
    TextMentions(compiled, order);
    var countFrom := SubmissionSearchFrom(predicates);
    var pageFrom := SubmissionSearchFrom(expressions);
    CoreFindsTheMeant(f, uid, compiled, SearchText.Scanned(predicates));
    CoreFindsTheMeant(f, uid, compiled, SearchText.Scanned(expressions));
    SortTableIsJoined(SearchText.Scanned(expressions), order);
    var comment := if f.comment.Some? then [Text(f.comment.value)] else [];
    var shared := comment + compiled.data + compiled.masterData;
    assert shared == SharedArgs(f, compiled) by { SharedIs(f, compiled); }
    var counted := Contains(predicates, "meta.") || f.comment.Some?;
    var count := Core(countFrom, f.comment.Some?, compiled.filters, compiled.masterFilters);
    var page := PageQuery(count.(from := pageFrom), order, f.ascDesc == Some("asc"), counted);
    r := Some(Built(page, shared + [Num(limit), Num(offset)], count, shared, limit, offset));
  }

  lemma SharedIs(f: Filter, c: Compiled)
    ensures SharedArgs(f, c) == (if f.comment.Some? then [Text(f.comment.value)] else []) + c.data + c.masterData
  {
  }

  lemma PageIsNatural(f: Filter, limit: int, offset: int)
    requires Checked(f) && limit == PageSize(f)
    requires offset == if f.page.Some? then (f.page.value - 1) * limit else 0
    ensures 1 <= limit <= 1000 && PageNumber(f) >= 1 && offset == (PageNumber(f) - 1) * limit >= 0
  {
  }

  /** The page query scans for the table of its sort column, too, and always for the cache row. */
  function Expressions(predicates: string, order: Order): string {
    predicates + " " + SortText(order) + " " + "submission_cache."
  }

  function SortText(order: Order): string {
    SearchText.Qualified(SearchText.Name(SortColumn(order).alias), SortColumn(order).name)
  }

  lemma TextMentions(c: Compiled, order: Order)
    requires Consistent(c)
    ensures var predicates := SearchText.RenderAll(c.filters);
            var some, more := SearchText.Scanned(predicates), SearchText.Scanned(Expressions(predicates, order));
            && AllMentions(c.filters) <= some + {Submission} && some <= more
            && Legacy !in some && Legacy !in more && SortColumn(order).alias in more
  {
    hide SearchText.RenderAll, AllMentions, Contains, SearchText.Qualifier, SearchText.Qualified;
    var predicates := SearchText.RenderAll(c.filters);
    assert Legacy !in AllMentions(c.filters);
    SearchText.ScanFindsMentioned(c.filters);
    SearchText.ScanOfMore(predicates, SortText(order));
    SearchText.ScanOfMore(predicates + " " + SortText(order), "submission_cache.");
    SearchText.OwnQualifier(SortColumn(order).alias, SortColumn(order).name);
  }

  lemma SortTableIsJoined(mentioned: set<Alias>, order: Order)
    requires SortColumn(order).alias in mentioned && Legacy !in mentioned
    ensures SortColumn(order).alias in Before(Kept(FULL, Needed(mentioned)))
  {
    hide Needed, Kept, Before, InOrder, Closed;
    NeededIsClosed(mentioned);
    FullIsInOrder();
    KeptStaysInOrder(FULL, Needed(mentioned));
  }
}
