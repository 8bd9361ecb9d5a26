/**
 The search filter (types/types.go) and its compilation to conditions and positional arguments
 (database/searchmonster.go), statement by statement, against what each field is meant to select
 among submissions and among legacy games.
 */
module SearchFilter {
  import opened Sql

  datatype Statuses = Statuses(
    testing: Option<string>, verification: Option<string>, requested: Option<string>,
    approved: Option<string>, verified: Option<string>)

  /** The metadata columns filtered by a plain LIKE. */
  datatype Texts = Texts(
    series: Option<string>, developer: Option<string>, publisher: Option<string>, playMode: Option<string>,
    status: Option<string>, version: Option<string>, releaseDate: Option<string>, languages: Option<string>,
    source: Option<string>, gameNotes: Option<string>, curationNotes: Option<string>,
    originalDescription: Option<string>)

  datatype Filter = Filter(
    submissionIds: seq<int>, submitterId: Option<int>, title: Option<string>, comment: Option<string>,
    submitterUsername: Option<string>, platform: Option<string>, library: Option<string>, texts: Texts,
    tags: Option<string>, hasApplications: Option<string>,
    originalFilename: Option<string>, currentFilename: Option<string>, md5: Option<string>, sha256: Option<string>,
    botActions: seq<string>, levels: seq<string>, resultsPerPage: Option<int>, page: Option<int>,
    any: Statuses, me: Statuses, userId: Option<int>, user: Statuses,
    isExtreme: Option<string>, distinctActions: seq<string>, distinctActionsNot: seq<string>,
    launchCommand: Option<string>,
    lastUploaderNotMe: Option<string>, submitterNotMe: Option<string>, orderBy: Option<string>, ascDesc: Option<string>,
    subscribedMe: Option<string>, excludeLegacy: bool, updatedById: Option<int>,
    isContentChange: Option<string>, isFrozen: Option<string>)

  // ---------------------------------------------------------------- validation

  function NonEmpty(v: Option<string>): Option<string> {
    if v == Some("") then None else v
  }

  function NonZero(v: Option<int>): Option<int> {
    if v == Some(0) then None else v
  }

  function UnzeroedStatuses(s: Statuses): Statuses {
    Statuses(NonEmpty(s.testing), NonEmpty(s.verification), NonEmpty(s.requested), NonEmpty(s.approved),
             NonEmpty(s.verified))
  }

  function UnzeroedTexts(t: Texts): Texts {
    Texts(NonEmpty(t.series), NonEmpty(t.developer), NonEmpty(t.publisher), NonEmpty(t.playMode),
          NonEmpty(t.status), NonEmpty(t.version), NonEmpty(t.releaseDate), NonEmpty(t.languages),
          NonEmpty(t.source), NonEmpty(t.gameNotes), NonEmpty(t.curationNotes), NonEmpty(t.originalDescription))
  }

  /** unzeroNilPointers: an empty text and a zero number mean that the field is not set. */
  function Unzeroed(f: Filter): Filter {
    f.(submitterId := NonZero(f.submitterId), title := NonEmpty(f.title), comment := NonEmpty(f.comment),
       submitterUsername := NonEmpty(f.submitterUsername), platform := NonEmpty(f.platform),
       library := NonEmpty(f.library),
       texts := UnzeroedTexts(f.texts), tags := NonEmpty(f.tags), hasApplications := NonEmpty(f.hasApplications),
       originalFilename := NonEmpty(f.originalFilename), currentFilename := NonEmpty(f.currentFilename),
       md5 := NonEmpty(f.md5), sha256 := NonEmpty(f.sha256),
       resultsPerPage := NonZero(f.resultsPerPage), page := NonZero(f.page),
       any := UnzeroedStatuses(f.any), me := UnzeroedStatuses(f.me), userId := NonZero(f.userId),
       user := UnzeroedStatuses(f.user), isExtreme := NonEmpty(f.isExtreme), launchCommand := NonEmpty(f.launchCommand),
       lastUploaderNotMe := NonEmpty(f.lastUploaderNotMe), submitterNotMe := NonEmpty(f.submitterNotMe),
       orderBy := NonEmpty(f.orderBy), ascDesc := NonEmpty(f.ascDesc), subscribedMe := NonEmpty(f.subscribedMe),
       updatedById := NonZero(f.updatedById), isContentChange := NonEmpty(f.isContentChange),
       isFrozen := NonEmpty(f.isFrozen))
  }

  /** A field that is set to nothing comes back unset, any other as it was. */
  predicate Cleared<T(==)>(given: Option<T>, nothing: T, kept: Option<T>) {
    if given == Some(nothing) then kept.None? else kept == given
  }

  predicate CleansStatuses(s: Statuses, r: Statuses) {
    && Cleared(s.testing, "", r.testing) && Cleared(s.verification, "", r.verification)
    && Cleared(s.requested, "", r.requested) && Cleared(s.approved, "", r.approved)
    && Cleared(s.verified, "", r.verified)
  }

  predicate CleansTexts(t: Texts, r: Texts) {
    && Cleared(t.series, "", r.series) && Cleared(t.developer, "", r.developer)
    && Cleared(t.publisher, "", r.publisher) && Cleared(t.playMode, "", r.playMode)
    && Cleared(t.status, "", r.status) && Cleared(t.version, "", r.version)
    && Cleared(t.releaseDate, "", r.releaseDate) && Cleared(t.languages, "", r.languages)
    && Cleared(t.source, "", r.source) && Cleared(t.gameNotes, "", r.gameNotes)
    && Cleared(t.curationNotes, "", r.curationNotes) && Cleared(t.originalDescription, "", r.originalDescription)
  }

  /** `r` is `f` with every field that is set to an empty text or to zero unset, and nothing else changed. */
  predicate Cleans(f: Filter, r: Filter) {
    && r.submissionIds == f.submissionIds && r.botActions == f.botActions && r.levels == f.levels
    && r.distinctActions == f.distinctActions && r.distinctActionsNot == f.distinctActionsNot
    && r.excludeLegacy == f.excludeLegacy
    && Cleared(f.submitterId, 0, r.submitterId) && Cleared(f.resultsPerPage, 0, r.resultsPerPage)
    && Cleared(f.page, 0, r.page) && Cleared(f.userId, 0, r.userId) && Cleared(f.updatedById, 0, r.updatedById)
    && Cleared(f.title, "", r.title) && Cleared(f.comment, "", r.comment)
    && Cleared(f.submitterUsername, "", r.submitterUsername) && Cleared(f.platform, "", r.platform)
    && Cleared(f.library, "", r.library) && CleansTexts(f.texts, r.texts) && Cleared(f.tags, "", r.tags)
    && Cleared(f.hasApplications, "", r.hasApplications) && Cleared(f.originalFilename, "", r.originalFilename)
    && Cleared(f.currentFilename, "", r.currentFilename) && Cleared(f.md5, "", r.md5) && Cleared(f.sha256, "", r.sha256)
    && CleansStatuses(f.any, r.any) && CleansStatuses(f.me, r.me) && CleansStatuses(f.user, r.user)
    && Cleared(f.isExtreme, "", r.isExtreme) && Cleared(f.launchCommand, "", r.launchCommand)
    && Cleared(f.lastUploaderNotMe, "", r.lastUploaderNotMe) && Cleared(f.submitterNotMe, "", r.submitterNotMe)
    && Cleared(f.orderBy, "", r.orderBy) && Cleared(f.ascDesc, "", r.ascDesc)
    && Cleared(f.subscribedMe, "", r.subscribedMe) && Cleared(f.isContentChange, "", r.isContentChange)
    && Cleared(f.isFrozen, "", r.isFrozen)
  }

  lemma UnzeroedCleans(f: Filter)
    ensures Cleans(f, Unzeroed(f))
  {
  }

  /** No field is forgotten: what the cleaning leaves is determined in every field. */
  lemma CleansOneWay(f: Filter, r: Filter, r': Filter)
    requires Cleans(f, r) && Cleans(f, r')
    ensures r == r'
  {
    StatusesOneWay(f.any, r.any, r'.any);
    StatusesOneWay(f.me, r.me, r'.me);
    StatusesOneWay(f.user, r.user, r'.user);
    TextsOneWay(f.texts, r.texts, r'.texts);
  }

  lemma StatusesOneWay(s: Statuses, r: Statuses, r': Statuses)
    requires CleansStatuses(s, r) && CleansStatuses(s, r')
    ensures r == r'
  {
  }

  lemma TextsOneWay(t: Texts, r: Texts, r': Texts)
    requires CleansTexts(t, r) && CleansTexts(t, r')
    ensures r == r'
  {
  }

  /** What validation works on is the cleaned request; a request with nothing to clean is itself. */
  lemma UnzeroedIsCleaned(f: Filter, r: Filter)
    ensures Cleans(f, r) <==> r == Unzeroed(f)
    ensures Cleans(f, f) ==> Unzeroed(f) == f
  {
    hide Unzeroed, Cleans;
    UnzeroedCleans(f);
    if Cleans(f, r) { CleansOneWay(f, r, Unzeroed(f)); }
    if Cleans(f, f) { CleansOneWay(f, f, Unzeroed(f)); }
  }

  predicate Among(v: Option<string>, choices: set<string>) {
    v.Some? ==> v.value in choices
  }

  predicate AtLeastOne(v: Option<int>) {
    v.Some? ==> v.value >= 1
  }

  predicate ValidStatuses(s: Statuses, approved: set<string>, verified: set<string>) {
    && Among(s.testing, {"unassigned", "assigned"}) && Among(s.verification, {"unassigned", "assigned"})
    && Among(s.requested, {"none", "ongoing"}) && Among(s.approved, approved) && Among(s.verified, verified)
  }

  const NO_STATUSES: Statuses := Statuses(None, None, None, None, None)

  /** The checks of Validate, on a filter already unzeroed. */
  predicate Checked(f: Filter) {
    && (forall i | 0 <= i < |f.submissionIds| :: f.submissionIds[i] >= 1)
    && AtLeastOne(f.submitterId) && AtLeastOne(f.resultsPerPage) && AtLeastOne(f.page) && AtLeastOne(f.userId)
    && (f.resultsPerPage.Some? ==> f.resultsPerPage.value <= 1000)
    && ValidStatuses(f.any, {"none", "approved"}, {"none", "verified"})
    && ValidStatuses(f.me, {"no", "yes"}, {"no", "yes"})
    && ValidStatuses(f.user, {"no", "yes"}, {"no", "yes"})
    && (f.userId.None? ==> f.user == NO_STATUSES)
    && Among(f.isExtreme, {"no", "yes", "No", "Yes"})
    && Among(f.isContentChange, {"no", "yes"}) && Among(f.isFrozen, {"no", "yes"})
    && Among(f.hasApplications, {"no", "yes"})
    && Among(f.lastUploaderNotMe, {"yes"}) && Among(f.submitterNotMe, {"yes"})
    && Among(f.orderBy, {"uploaded", "updated", "size", "title", "platform", "library"})
    && Among(f.ascDesc, {"asc", "desc"}) && Among(f.subscribedMe, {"no", "yes"})
  }

  predicate AllAmong(fields: seq<(Option<string>, set<string>)>) {
    forall i | 0 <= i < |fields| :: fields[i].0.Some? ==> fields[i].0.value in fields[i].1
  }

  lemma AllAmongSum(a: seq<(Option<string>, set<string>)>, b: seq<(Option<string>, set<string>)>)
    ensures AllAmong(a + b) <==> AllAmong(a) && AllAmong(b)
  {
    if AllAmong(a + b) {
      forall i | 0 <= i < |a| ensures a[i].0.Some? ==> a[i].0.value in a[i].1 { assert (a + b)[i] == a[i]; }
      forall i | 0 <= i < |b| ensures b[i].0.Some? ==> b[i].0.value in b[i].1 { assert (a + b)[|a| + i] == b[i]; }
    }
  }

  /** Five fields of one kind, with their values. */
  function StatusChoices(s: Statuses, no: string, approved: string, verified: string)
    : seq<(Option<string>, set<string>)>
  {
    [(s.testing, {"unassigned", "assigned"}), (s.verification, {"unassigned", "assigned"}),
     (s.requested, {"none", "ongoing"}), (s.approved, {no, approved}), (s.verified, {no, verified})]
  }

  function OtherChoices(f: Filter): seq<(Option<string>, set<string>)> {
    [(f.isExtreme, {"no", "yes", "No", "Yes"}), (f.isContentChange, {"no", "yes"}), (f.isFrozen, {"no", "yes"}),
     (f.hasApplications, {"no", "yes"}), (f.subscribedMe, {"no", "yes"}), (f.lastUploaderNotMe, {"yes"}),
     (f.submitterNotMe, {"yes"}), (f.ascDesc, {"asc", "desc"}),
     (f.orderBy, {"uploaded", "updated", "size", "title", "platform", "library"})]
  }

  /**
   A cleaned filter passes exactly if ids, page and page size are positive, the page size is at most a
   thousand, every field with a list of values has one of them, and nobody's statuses are asked for
   without saying whose.
   */
  lemma CheckedMeans(f: Filter)
    ensures Checked(f) <==>
              && (forall i | 0 <= i < |f.submissionIds| :: f.submissionIds[i] > 0)
              && (f.submitterId.Some? ==> f.submitterId.value > 0) && (f.userId.Some? ==> f.userId.value > 0)
              && (f.page.Some? ==> f.page.value > 0) && (f.resultsPerPage.Some? ==> f.resultsPerPage.value > 0)
              && !(f.resultsPerPage.Some? && f.resultsPerPage.value > 1000)
              && AllAmong(StatusChoices(f.any, "none", "approved", "verified") + StatusChoices(f.me, "no", "yes", "yes")
                          + StatusChoices(f.user, "no", "yes", "yes") + OtherChoices(f))
              && (f.userId.Some? || forall p | p in StatusChoices(f.user, "no", "yes", "yes") :: p.0.None?)
  {
    hide AllAmong, StatusChoices, OtherChoices, ValidStatuses, Among;
    var any, me, user := StatusChoices(f.any, "none", "approved", "verified"), StatusChoices(f.me, "no", "yes", "yes"),
                         StatusChoices(f.user, "no", "yes", "yes");
    StatusesAmong(f.any, "none", "approved", "verified");
    StatusesAmong(f.me, "no", "yes", "yes");
    StatusesAmong(f.user, "no", "yes", "yes");
    OthersAmong(f);
    AllAmongSum(any + me + user, OtherChoices(f));
    AllAmongSum(any + me, user);
    AllAmongSum(any, me);
  }

  lemma StatusesAmong(s: Statuses, no: string, approved: string, verified: string)
    ensures AllAmong(StatusChoices(s, no, approved, verified)) <==> ValidStatuses(s, {no, approved}, {no, verified})
    ensures (forall p | p in StatusChoices(s, no, approved, verified) :: p.0.None?) <==> s == NO_STATUSES
  {
    var c := StatusChoices(s, no, approved, verified);
    assert c[0] in c && c[1] in c && c[2] in c && c[3] in c && c[4] in c;
    if AllAmong(c) {
      assert c[0].0 == s.testing && c[1].0 == s.verification && c[2].0 == s.requested;
      assert c[3].0 == s.approved && c[4].0 == s.verified;
    }
  }

  lemma OthersAmong(f: Filter)
    ensures AllAmong(OtherChoices(f)) <==>
              && Among(f.isExtreme, {"no", "yes", "No", "Yes"}) && Among(f.isContentChange, {"no", "yes"})
              && Among(f.isFrozen, {"no", "yes"}) && Among(f.hasApplications, {"no", "yes"})
              && Among(f.subscribedMe, {"no", "yes"}) && Among(f.lastUploaderNotMe, {"yes"})
              && Among(f.submitterNotMe, {"yes"}) && Among(f.ascDesc, {"asc", "desc"})
              && Among(f.orderBy, {"uploaded", "updated", "size", "title", "platform", "library"})
  {
    var c := OtherChoices(f);
    if AllAmong(c) {
      assert c[0].0 == f.isExtreme && c[1].0 == f.isContentChange && c[2].0 == f.isFrozen;
      assert c[3].0 == f.hasApplications;
      assert c[4].0 == f.subscribedMe && c[5].0 == f.lastUploaderNotMe && c[6].0 == f.submitterNotMe;
      assert c[7].0 == f.ascDesc && c[8].0 == f.orderBy;
    }
  }

  // ---------------------------------------------------------------- what the fields mean

  /** The column contains the text, wildcards in it still being wildcards; NULL contains nothing. */
  predicate Contained(v: Value, text: string) {
    v != Null && Like(TextOf(v), Around(text))
  }

  predicate MeansLike(v: Value, text: Option<string>) {
    text.Some? ==> Contained(v, text.value)
  }

  predicate Blank(c: char) {
    c in [' ', '\t', '\n', '\r']
  }

  function TrimLeft(s: string): string {
    if s != "" && Blank(s[0]) then TrimLeft(s[1..]) else s
  }

  function TrimRight(s: string): string {
    if s != "" && Blank(s[|s| - 1]) then TrimRight(s[..|s| - 1]) else s
  }

  function Trim(s: string): string {
    TrimRight(TrimLeft(s))
  }

  /** strings.Split at commas: always at least one piece. */
  function Split(s: string): (pieces: seq<string>)
    ensures pieces != []
  {
    if s == "" then [""]
    else
      var rest := Split(s[1..]);
      if s[0] == ',' then [""] + rest else [[s[0]] + rest[0]] + rest[1..]
  }

  /** One item of a comma list, trimmed; an empty item says nothing. */
  predicate Wanted(list: string, term: string) {
    term != "" && term[0] != '!' && exists piece | piece in Split(list) :: Trim(piece) == term
  }

  predicate Unwanted(list: string, term: string) {
    exists piece | piece in Split(list) :: Trim(piece) == "!" + term
  }

  /** At least one of the wanted terms, if there are any, and none of the unwanted ones. */
  ghost predicate MeansList(v: Value, list: Option<string>) {
    list.Some? ==>
      && ((exists term :: Wanted(list.value, term)) ==> exists term :: Wanted(list.value, term) && Contained(v, term))
      && (forall term | Unwanted(list.value, term) :: v != Null && !Contained(v, term))
  }

  predicate MeansOneOf(v: Value, values: seq<Value>) {
    values != [] ==> v in values
  }

  /** A NULL id list is an empty one. */
  predicate Holds(v: Value, uid: int) {
    v.Ids? && uid in v.ids
  }

  predicate MeansAnyone(v: Value, status: Option<string>, off: string) {
    status.Some? ==> (if status.value == off then v == Null else v != Null)
  }

  predicate MeansUser(v: Value, status: Option<string>, off: string, uid: int) {
    status.Some? ==> (if status.value == off then !Holds(v, uid) else Holds(v, uid))
  }

  // ---------------------------------------------------------------- the compiler's state

  /** The four slices the compiler grows. */
  datatype Compiled = Compiled(filters: seq<Pred>, masterFilters: seq<Pred>, data: seq<Value>, masterData: seq<Value>)

  const TABLES: set<Alias> := {Submission, Cache, OldestFile, NewestFile, NewestComment, Uploader, Updater, Meta}

  /** As many arguments as placeholders on each side, and each side about its own tables. */
  ghost predicate Consistent(q: Compiled) {
    && |q.data| == AllHoles(q.filters) && |q.masterData| == AllHoles(q.masterFilters)
    && AllMentions(q.filters) <= TABLES && AllMentions(q.masterFilters) <= {Legacy}
  }

  ghost predicate Takes(q: Compiled, env: Joined, subs: Subscriptions)
    requires Consistent(q)
  {
    Where(q.filters, q.data, env, subs) == True
  }

  ghost predicate TakesLegacy(q: Compiled, env: Joined, subs: Subscriptions)
    requires Consistent(q)
  {
    Where(q.masterFilters, q.masterData, env, subs) == True
  }

  function With(q: Compiled, p: Pred, args: seq<Value>): Compiled {
    q.(filters := q.filters + [p], data := q.data + args)
  }

  function WithLegacy(q: Compiled, p: Pred, args: seq<Value>): Compiled {
    q.(masterFilters := q.masterFilters + [p], masterData := q.masterData + args)
  }

  lemma WithMeans(q: Compiled, p: Pred, args: seq<Value>)
    requires Consistent(q) && |args| == Holes(p) && Mentions(p) <= TABLES
    ensures Consistent(With(q, p, args))
    ensures forall env, subs ::
              Takes(With(q, p, args), env, subs) <==> Takes(q, env, subs) && Eval(p, args, env, subs) == True
    ensures forall env, subs :: TakesLegacy(With(q, p, args), env, subs) <==> TakesLegacy(q, env, subs)
  {
    hide Where, Eval;
    MentionsOneMore(q.filters, p);
    WhereWithOneMore(q.filters, q.data, p, args, map[], {});
    forall env, subs
      ensures Where(q.filters + [p], q.data + args, env, subs) == And(Where(q.filters, q.data, env, subs),
                                                                      Eval(p, args, env, subs))
    {
      WhereWithOneMore(q.filters, q.data, p, args, env, subs);
    }
  }

  lemma WithLegacyMeans(q: Compiled, p: Pred, args: seq<Value>)
    requires Consistent(q) && |args| == Holes(p) && Mentions(p) <= {Legacy}
    ensures Consistent(WithLegacy(q, p, args))
    ensures forall env, subs ::
              TakesLegacy(WithLegacy(q, p, args), env, subs) <==>
                  TakesLegacy(q, env, subs) && Eval(p, args, env, subs) == True
    ensures forall env, subs :: Takes(WithLegacy(q, p, args), env, subs) <==> Takes(q, env, subs)
  {
    hide Where, Eval;
    MentionsOneMore(q.masterFilters, p);
    WhereWithOneMore(q.masterFilters, q.masterData, p, args, map[], {});
    forall env, subs
      ensures Where(q.masterFilters + [p], q.masterData + args, env, subs)
           == And(Where(q.masterFilters, q.masterData, env, subs), Eval(p, args, env, subs))
    {
      WhereWithOneMore(q.masterFilters, q.masterData, p, args, env, subs);
    }
  }

  lemma MentionsOneMore(preds: seq<Pred>, p: Pred)
    ensures AllMentions(preds + [p]) == AllMentions(preds) + Mentions(p)
  {
    assert (preds + [p])[..|preds|] == preds;
  }

  // ---------------------------------------------------------------- single conditions

  /** The state after adding a condition on submissions: the legacy side is closed off. */
  ghost predicate Narrows(q: Compiled, r: Compiled) {
    Consistent(q) && Consistent(r) && forall env, subs :: !TakesLegacy(r, env, subs)
  }

  method AddOnly(q: Compiled, p: Pred, args: seq<Value>) returns (r: Compiled)
    requires Consistent(q) && |args| == Holes(p) && Mentions(p) <= TABLES
    ensures Narrows(q, r)
    ensures forall env, subs :: Takes(r, env, subs) <==> Takes(q, env, subs) && Eval(p, args, env, subs) == True
  {
    hide Takes, TakesLegacy, Consistent, Eval, Holes;
    WithMeans(q, p, args);
    r := With(q, p, args);
    r := ExcludeLegacy(r);
  }

  method ExcludeLegacy(q: Compiled) returns (r: Compiled)
    requires Consistent(q)
    ensures Narrows(q, r)
    ensures forall env, subs :: Takes(r, env, subs) <==> Takes(q, env, subs)
  {
    WithLegacyMeans(q, Never, []);
    r := WithLegacy(q, Never, []);
  }

  /** `given` says that the field is set; only then is a condition added and the legacy side closed. */
  method AddOnlyIf(q: Compiled, given: bool, p: Pred, args: seq<Value>) returns (r: Compiled)
    requires Consistent(q) && (given ==> |args| == Holes(p) && Mentions(p) <= TABLES)
    ensures Consistent(r)
    ensures forall env, subs :: Takes(r, env, subs) <==>
              Takes(q, env, subs) && (given ==> Eval(p, args, env, subs) == True)
    ensures forall env, subs :: TakesLegacy(r, env, subs) <==> TakesLegacy(q, env, subs) && !given
  {
    hide Takes, TakesLegacy, Consistent, Eval, Holes;
    r := q;
    if given {
      r := AddOnly(q, p, args);
      assert Consistent(r) && forall env, subs :: !TakesLegacy(r, env, subs) by { NarrowsMeans(q, r); }
    }
  }

  lemma NarrowsMeans(q: Compiled, r: Compiled)
    requires Narrows(q, r)
    ensures Consistent(r) && forall env, subs :: !TakesLegacy(r, env, subs)
  {
  }

  function MetaColumn(name: string): Column {
    Column(Meta, name)
  }

  function LegacyColumn(name: string): Column {
    Column(Legacy, name)
  }

  function CacheColumn(name: string): Column {
    Column(Cache, name)
  }

  method AddLike(q: Compiled, c: Column, master: Option<Column>, text: Option<string>) returns (r: Compiled)
    requires Consistent(q) && c.alias in TABLES && (master.Some? ==> master.value.alias == Legacy)
    ensures Consistent(r)
    ensures forall env, subs :: Takes(r, env, subs) <==> Takes(q, env, subs) && MeansLike(Get(env, c), text)
    ensures forall env, subs :: TakesLegacy(r, env, subs) <==>
              TakesLegacy(q, env, subs) && (text.Some? ==>
                                            master.Some? && Contained(Get(env, master.value), text.value))
  {
    hide Takes, TakesLegacy, Consistent, Like;
    r := q;
    if text.Some? {
      var args := [Text(Around(text.value))];
      WithMeans(q, Matches(c), args);
      r := With(q, Matches(c), args);
      if master.Some? {
        WithLegacyMeans(r, Matches(master.value), args);
        r := WithLegacy(r, Matches(master.value), args);
      } else {
        WithLegacyMeans(r, Never, []);
        r := WithLegacy(r, Never, []);
      }
    }
  }

  method AddOneOf(q: Compiled, c: Column, values: seq<Value>) returns (r: Compiled)
    requires Consistent(q) && c.alias in TABLES && Null !in values
    ensures Consistent(r)
    ensures forall env, subs :: Takes(r, env, subs) <==> Takes(q, env, subs) && MeansOneOf(Get(env, c), values)
    ensures forall env, subs :: TakesLegacy(r, env, subs) <==> TakesLegacy(q, env, subs) && values == []
  {
    hide Takes, TakesLegacy, Consistent;
    r := AddOnlyIf(q, values != [], OneOf(c, |values|), values);
  }

  method AddAnyone(q: Compiled, c: Column, status: Option<string>, off: string, on: string) returns (r: Compiled)
    requires Consistent(q) && c.alias in TABLES && Among(status, {off, on}) && off != on
    ensures Consistent(r)
    ensures forall env, subs :: Takes(r, env, subs) <==> Takes(q, env, subs) && MeansAnyone(Get(env, c), status, off)
    ensures forall env, subs :: TakesLegacy(r, env, subs) <==> TakesLegacy(q, env, subs) && status.None?
  {
    hide Takes, TakesLegacy, Consistent;
    if status == Some(off) {
      r := AddOnlyIf(q, true, IsNull(c), []);
    } else if status == Some(on) {
      r := AddOnlyIf(q, true, IsNotNull(c), []);
    } else {
      r := q;
    }
  }

  method AddUser(q: Compiled, c: Column, status: Option<string>, off: string, on: string,
                 uid: int) returns (r: Compiled)
    requires Consistent(q) && c.alias in TABLES && Among(status, {off, on}) && off != on
    ensures Consistent(r)
    ensures forall env, subs :: Takes(r, env, subs) <==> Takes(q, env, subs) && MeansUser(Get(env, c), status, off, uid)
    ensures forall env, subs :: TakesLegacy(r, env, subs) <==> TakesLegacy(q, env, subs) && status.None?
  {
    hide Takes, TakesLegacy, Consistent;
    if status == Some(off) {
      r := AddOnlyIf(q, true, NotInSet(c), [Num(uid)]);
    } else if status == Some(on) {
      r := AddOnlyIf(q, true, InSet(c), [Num(uid)]);
    } else {
      r := q;
    }
  }

  // ---------------------------------------------------------------- comma lists

  /** `(c LIKE ?) OR (c LIKE ?) OR …` */
  function AnyMatch(c: Column, n: nat): Pred
    requires n > 0
  {
    if n == 1 then Matches(c) else Either(AnyMatch(c, n - 1), Matches(c))
  }

  /** `(c NOT LIKE ?) AND (c NOT LIKE ?) AND …` */
  function NoMatch(c: Column, n: nat): Pred
    requires n > 0
  {
    if n == 1 then NotMatches(c) else Both(NoMatch(c, n - 1), NotMatches(c))
  }

  function Patterns(terms: seq<string>): (args: seq<Value>)
    ensures |args| == |terms| && forall i | 0 <= i < |terms| :: args[i] == Text(Around(terms[i]))
  {
    seq(|terms|, i requires 0 <= i < |terms| => Text(Around(terms[i])))
  }

  lemma OneMatches(c: Column, term: string, env: Joined, subs: Subscriptions)
    ensures Holes(Matches(c)) == 1
    ensures var r := Eval(Matches(c), [Text(Around(term))], env, subs);
            (r == True <==> Contained(Get(env, c), term)) && (r == Unknown <==> Get(env, c) == Null)
  {
    hide Like, Get;
  }

  lemma OneNotMatches(c: Column, term: string, env: Joined, subs: Subscriptions)
    ensures Holes(NotMatches(c)) == 1
    ensures Eval(NotMatches(c), [Text(Around(term))], env, subs) == True
       <==> Get(env, c) != Null && !Contained(Get(env, c), term)
  {
    hide Like, Get;
  }

  lemma AnyMatchOne(c: Column)
    ensures AnyMatch(c, 1) == Matches(c) && Holes(Matches(c)) == 1 && Mentions(Matches(c)) == {c.alias}
  {
  }

  lemma NoMatchOne(c: Column)
    ensures NoMatch(c, 1) == NotMatches(c) && Holes(NotMatches(c)) == 1 && Mentions(NotMatches(c)) == {c.alias}
  {
  }

  lemma AnyMatchOneMore(c: Column, n: nat, args: seq<Value>, env: Joined, subs: Subscriptions)
    requires n > 1 && |args| == n && Holes(AnyMatch(c, n - 1)) == n - 1
    ensures Holes(AnyMatch(c, n)) == n && Holes(Matches(c)) == 1
    ensures Mentions(AnyMatch(c, n)) == Mentions(AnyMatch(c, n - 1)) + {c.alias}
    ensures Eval(AnyMatch(c, n), args, env, subs)
         == Or(Eval(AnyMatch(c, n - 1), args[..n - 1], env, subs), Eval(Matches(c), args[n - 1..], env, subs))
  {
    hide Like, Get;
  }

  lemma NoMatchOneMore(c: Column, n: nat, args: seq<Value>, env: Joined, subs: Subscriptions)
    requires n > 1 && |args| == n && Holes(NoMatch(c, n - 1)) == n - 1
    ensures Holes(NoMatch(c, n)) == n && Holes(NotMatches(c)) == 1
    ensures Mentions(NoMatch(c, n)) == Mentions(NoMatch(c, n - 1)) + {c.alias}
    ensures Eval(NoMatch(c, n), args, env, subs)
         == And(Eval(NoMatch(c, n - 1), args[..n - 1], env, subs), Eval(NotMatches(c), args[n - 1..], env, subs))
  {
    hide Like, Get;
  }

  lemma {:induction false} AnyMatchMeans(c: Column, terms: seq<string>, env: Joined, subs: Subscriptions)
    requires terms != []
    ensures Holes(AnyMatch(c, |terms|)) == |terms| && Mentions(AnyMatch(c, |terms|)) == {c.alias}
    ensures Eval(AnyMatch(c, |terms|), Patterns(terms), env, subs) == True
       <==> exists i :: 0 <= i < |terms| && Contained(Get(env, c), terms[i])
  {
    hide Eval, Get, Contained, Around, Patterns, AnyMatch, Holes, Mentions;
    OneMatches(c, terms[|terms| - 1], env, subs);
    AnyMatchOne(c);
    var n := |terms|;
    assert Patterns(terms)[n - 1..] == [Text(Around(terms[n - 1]))];
    if n > 1 {
      var rest := terms[..n - 1];
      AnyMatchMeans(c, rest, env, subs);
      AnyMatchOneMore(c, n, Patterns(terms), env, subs);
      assert Patterns(terms)[..n - 1] == Patterns(rest);
      assert forall i | 0 <= i < n - 1 :: rest[i] == terms[i];
    } else {
      assert Patterns(terms)[0..] == Patterns(terms);
    }
  }

  lemma {:induction false} NoMatchMeans(c: Column, terms: seq<string>, env: Joined, subs: Subscriptions)
    requires terms != []
    ensures Holes(NoMatch(c, |terms|)) == |terms| && Mentions(NoMatch(c, |terms|)) == {c.alias}
    ensures Eval(NoMatch(c, |terms|), Patterns(terms), env, subs) == True
       <==> Get(env, c) != Null && forall i | 0 <= i < |terms| :: !Contained(Get(env, c), terms[i])
  {
    hide Eval, Get, Contained, Around, Patterns, NoMatch, Holes, Mentions;
    OneNotMatches(c, terms[|terms| - 1], env, subs);
    NoMatchOne(c);
    var n := |terms|;
    assert Patterns(terms)[n - 1..] == [Text(Around(terms[n - 1]))];
    if n > 1 {
      var rest := terms[..n - 1];
      NoMatchMeans(c, rest, env, subs);
      NoMatchOneMore(c, n, Patterns(terms), env, subs);
      assert Patterns(terms)[..n - 1] == Patterns(rest);
      assert forall i | 0 <= i < n - 1 :: rest[i] == terms[i];
    } else {
      assert Patterns(terms)[0..] == Patterns(terms);
    }
  }

  /** The terms of a comma list, sorted into the wanted and the unwanted ones. */
  method Sift(list: string) returns (wanted: seq<string>, unwanted: seq<string>)
    ensures forall term :: term in wanted <==> Wanted(list, term)
    ensures forall term :: term in unwanted <==> Unwanted(list, term)
  {
    hide Trim, Split;
    var pieces := Split(list);
    wanted, unwanted := [], [];
    for i := 0 to |pieces|
      invariant forall term :: term in wanted <==>
                  term != "" && term[0] != '!' && exists k :: 0 <= k < i && Trim(pieces[k]) == term
      invariant forall term :: term in unwanted <==> exists k :: 0 <= k < i && Trim(pieces[k]) == "!" + term
    {
      var s := Trim(pieces[i]);
      assert forall term: string :: s == "!" + term <==> s != "" && s[0] == '!' && term == s[1..];
      if |s| == 0 { continue; }
      if s[0] == '!' {
        unwanted := unwanted + [s[1..]];
      } else {
        wanted := wanted + [s];
      }
    }
  }

  ghost predicate MeansTerms(v: Value, wanted: seq<string>, unwanted: seq<string>) {
    && (wanted != [] ==> exists i :: 0 <= i < |wanted| && Contained(v, wanted[i]))
    && (unwanted != [] ==> v != Null)
    && (forall i | 0 <= i < |unwanted| :: !Contained(v, unwanted[i]))
  }

  ghost predicate Sifted(list: string, wanted: seq<string>, unwanted: seq<string>) {
    && (forall term :: term in wanted <==> Wanted(list, term))
    && (forall term :: term in unwanted <==> Unwanted(list, term))
  }

  lemma ListToTerms(v: Value, list: string, wanted: seq<string>, unwanted: seq<string>)
    requires Sifted(list, wanted, unwanted) && MeansList(v, Some(list))
    ensures MeansTerms(v, wanted, unwanted)
  {
    forall i | 0 <= i < |unwanted| ensures !Contained(v, unwanted[i]) {
      assert unwanted[i] in unwanted;
    }
    if unwanted != [] { assert unwanted[0] in unwanted; }
    if wanted != [] {
      assert wanted[0] in wanted;
      var term :| Wanted(list, term) && Contained(v, term);
      var i :| 0 <= i < |wanted| && wanted[i] == term;
    }
  }

  lemma TermsToList(v: Value, list: string, wanted: seq<string>, unwanted: seq<string>)
    requires Sifted(list, wanted, unwanted) && MeansTerms(v, wanted, unwanted)
    ensures MeansList(v, Some(list))
  {
    hide Wanted, Unwanted, Contained;
    forall term | Unwanted(list, term) ensures v != Null && !Contained(v, term) {
      var i :| 0 <= i < |unwanted| && unwanted[i] == term;
    }
    if term :| Wanted(list, term) {
      assert term in wanted;
      var i :| 0 <= i < |wanted| && Contained(v, wanted[i]);
      assert wanted[i] in wanted;
    }
  }

  lemma TermsMeanList(list: string, wanted: seq<string>, unwanted: seq<string>)
    requires Sifted(list, wanted, unwanted)
    ensures forall v :: MeansTerms(v, wanted, unwanted) <==> MeansList(v, Some(list))
  {
    hide MeansTerms, MeansList, Sifted;
    forall v ensures MeansTerms(v, wanted, unwanted) <==> MeansList(v, Some(list)) {
      if MeansList(v, Some(list)) { ListToTerms(v, list, wanted, unwanted); }
      if MeansTerms(v, wanted, unwanted) { TermsToList(v, list, wanted, unwanted); }
    }
  }

  lemma MatchesMeanTerms(c: Column, terms: seq<string>)
    requires terms != []
    ensures Holes(AnyMatch(c, |terms|)) == |terms| == Holes(NoMatch(c, |terms|))
    ensures Mentions(AnyMatch(c, |terms|)) == Mentions(NoMatch(c, |terms|)) == {c.alias}
    ensures forall env, subs ::
              Eval(AnyMatch(c, |terms|), Patterns(terms), env, subs) == True <==> MeansTerms(Get(env, c), terms, [])
    ensures forall env, subs ::
              Eval(NoMatch(c, |terms|), Patterns(terms), env, subs) == True <==> MeansTerms(Get(env, c), [], terms)
  {
    hide Contained, AnyMatch, NoMatch, Eval, Get, Patterns;
    AnyMatchMeans(c, terms, map[], {});
    NoMatchMeans(c, terms, map[], {});
    forall env, subs
      ensures Eval(AnyMatch(c, |terms|), Patterns(terms), env, subs) == True <==> MeansTerms(Get(env, c), terms, [])
      ensures Eval(NoMatch(c, |terms|), Patterns(terms), env, subs) == True <==> MeansTerms(Get(env, c), [], terms)
    {
      AnyMatchMeans(c, terms, env, subs);
      NoMatchMeans(c, terms, env, subs);
    }
  }

  lemma TermsSplit(wanted: seq<string>, unwanted: seq<string>)
    ensures forall v :: MeansTerms(v, wanted, unwanted) <==> MeansTerms(v, wanted, []) && MeansTerms(v, [], unwanted)
  {
  }

  method AddTerms(q: Compiled, c: Column, wanted: seq<string>, unwanted: seq<string>) returns (r: Compiled)
    requires Consistent(q) && c.alias in TABLES
    ensures Consistent(r)
    ensures forall env, subs :: Takes(r, env, subs) <==>
              Takes(q, env, subs) && MeansTerms(Get(env, c), wanted, unwanted)
    ensures forall env, subs :: TakesLegacy(r, env, subs) <==> TakesLegacy(q, env, subs)
  {
    hide Takes, TakesLegacy, Consistent, Contained, AnyMatch, NoMatch, Eval, MeansTerms, Get;
    r := q;
    TermsSplit(wanted, unwanted);
    NoTerms();
    if |wanted| > 0 {
      MatchesMeanTerms(c, wanted);
      WithMeans(r, AnyMatch(c, |wanted|), Patterns(wanted));
      r := With(r, AnyMatch(c, |wanted|), Patterns(wanted));
    }
    if |unwanted| > 0 {
      MatchesMeanTerms(c, unwanted);
      WithMeans(r, NoMatch(c, |unwanted|), Patterns(unwanted));
      r := With(r, NoMatch(c, |unwanted|), Patterns(unwanted));
    }
  }

  lemma NoTerms()
    ensures forall v :: MeansTerms(v, [], [])
  {
  }

  method AddLegacyTerms(q: Compiled, c: Column, wanted: seq<string>, unwanted: seq<string>) returns (r: Compiled)
    requires Consistent(q) && c.alias == Legacy
    ensures Consistent(r)
    ensures forall env, subs :: Takes(r, env, subs) <==> Takes(q, env, subs)
    ensures forall env, subs :: TakesLegacy(r, env, subs) <==>
              TakesLegacy(q, env, subs) && MeansTerms(Get(env, c), wanted, unwanted)
  {
    hide Takes, TakesLegacy, Consistent, Contained, AnyMatch, NoMatch, Eval, MeansTerms, Get;
    r := q;
    TermsSplit(wanted, unwanted);
    NoTerms();
    if |wanted| > 0 {
      MatchesMeanTerms(c, wanted);
      WithLegacyMeans(r, AnyMatch(c, |wanted|), Patterns(wanted));
      r := WithLegacy(r, AnyMatch(c, |wanted|), Patterns(wanted));
    }
    if |unwanted| > 0 {
      MatchesMeanTerms(c, unwanted);
      WithLegacyMeans(r, NoMatch(c, |unwanted|), Patterns(unwanted));
      r := WithLegacy(r, NoMatch(c, |unwanted|), Patterns(unwanted));
    }
  }

  /** addMultifilter. */
  method AddMultifilter(q: Compiled, c: Column, master: Option<Column>, list: Option<string>) returns (r: Compiled)
    requires Consistent(q) && c.alias in TABLES && (master.Some? ==> master.value.alias == Legacy)
    ensures Consistent(r)
    ensures forall env, subs :: Takes(r, env, subs) <==> Takes(q, env, subs) && MeansList(Get(env, c), list)
    ensures forall env, subs :: TakesLegacy(r, env, subs) <==>
              TakesLegacy(q, env, subs) && (master.Some? ==> MeansList(Get(env, master.value), list))
  {
    hide Takes, TakesLegacy, Consistent, Wanted, Unwanted, MeansTerms, Get;
    r := q;
    if list.Some? {
      var wanted, unwanted := Sift(list.value);
      TermsMeanList(list.value, wanted, unwanted);
      r := AddTerms(r, c, wanted, unwanted);
      if master.Some? {
        r := AddLegacyTerms(r, master.value, wanted, unwanted);
      }
    }
  }

  // ---------------------------------------------------------------- the fields, group by group

  function Nums(ns: seq<int>): (values: seq<Value>)
    ensures |values| == |ns| && Null !in values
  {
    seq(|ns|, i requires 0 <= i < |ns| => Num(ns[i]))
  }

  function Names(names: seq<string>): (values: seq<Value>)
    ensures |values| == |names| && Null !in values
  {
    seq(|names|, i requires 0 <= i < |names| => Text(names[i]))
  }

  predicate MeansEqual(v: Value, n: Option<int>) {
    n.Some? ==> v == Num(n.value)
  }

  predicate MeansEither(v: Value, w: Value, text: Option<string>) {
    text.Some? ==> Contained(v, text.value) || Contained(w, text.value)
  }

  method AddEqual(q: Compiled, c: Column, n: Option<int>) returns (r: Compiled)
    requires Consistent(q) && c.alias in TABLES
    ensures Consistent(r)
    ensures forall env, subs :: Takes(r, env, subs) <==> Takes(q, env, subs) && MeansEqual(Get(env, c), n)
    ensures forall env, subs :: TakesLegacy(r, env, subs) <==> TakesLegacy(q, env, subs) && n.None?
  {
    hide Takes, TakesLegacy, Consistent;
    r := AddOnlyIf(q, n.Some?, Equals(c), if n.Some? then [Num(n.value)] else []);
  }

  method AddTitle(q: Compiled, title: Option<string>) returns (r: Compiled)
    requires Consistent(q)
    ensures Consistent(r)
    ensures forall env, subs :: Takes(r, env, subs) <==>
              Takes(q, env, subs) && MeansEither(Get(env, MetaColumn("title")),
                                                 Get(env, MetaColumn("alternate_titles")), title)
    ensures forall env, subs :: TakesLegacy(r, env, subs) <==>
              TakesLegacy(q, env, subs) && MeansEither(Get(env, LegacyColumn("title")),
                                                       Get(env, LegacyColumn("alternate_titles")), title)
  {
    hide Takes, TakesLegacy, Consistent, Contained, Eval, Get;
    r := q;
    if title.Some? {
      var args := [Text(Around(title.value)), Text(Around(title.value))];
      EitherMatches(MetaColumn("title"), MetaColumn("alternate_titles"), title.value);
      EitherMatches(LegacyColumn("title"), LegacyColumn("alternate_titles"), title.value);
      WithMeans(r, Either(Matches(MetaColumn("title")), Matches(MetaColumn("alternate_titles"))), args);
      r := With(r, Either(Matches(MetaColumn("title")), Matches(MetaColumn("alternate_titles"))), args);
      WithLegacyMeans(r, Either(Matches(LegacyColumn("title")), Matches(LegacyColumn("alternate_titles"))), args);
      r := WithLegacy(r, Either(Matches(LegacyColumn("title")), Matches(LegacyColumn("alternate_titles"))), args);
    }
  }

  lemma EitherMatches(c: Column, d: Column, text: string)
    ensures forall env, subs ::
              Eval(Either(Matches(c), Matches(d)), [Text(Around(text)), Text(Around(text))], env, subs) == True
              <==> Contained(Get(env, c), text) || Contained(Get(env, d), text)
  {
    hide Like;
    var args := [Text(Around(text)), Text(Around(text))];
    assert args[..1] == [Text(Around(text))] && args[1..] == [Text(Around(text))];
  }

  ghost predicate MeansIdentity(f: Filter, env: Joined) {
    && MeansOneOf(Get(env, Column(Submission, "id")), Nums(f.submissionIds))
    && MeansEqual(Get(env, Column(Uploader, "id")), f.submitterId)
    && MeansEither(Get(env, MetaColumn("title")), Get(env, MetaColumn("alternate_titles")), f.title)
    && MeansList(Get(env, Column(Uploader, "username")), f.submitterUsername)
    && MeansList(Get(env, MetaColumn("platform")), f.platform)
    && MeansLike(Get(env, MetaColumn("library")), f.library)
  }

  ghost predicate LegacyIdentity(f: Filter, env: Joined) {
    && f.submissionIds == [] && f.submitterId.None? && f.comment.None? && f.submitterUsername.None?
    && MeansEither(Get(env, LegacyColumn("title")), Get(env, LegacyColumn("alternate_titles")), f.title)
    && MeansList(Get(env, LegacyColumn("platform")), f.platform)
    && MeansLike(Get(env, LegacyColumn("library")), f.library)
  }

  method CompileIdentity(q: Compiled, f: Filter) returns (r: Compiled)
    requires Consistent(q)
    ensures Consistent(r)
    ensures forall env, subs :: Takes(r, env, subs) <==> Takes(q, env, subs) && MeansIdentity(f, env)
    ensures forall env, subs :: TakesLegacy(r, env, subs) <==> TakesLegacy(q, env, subs) && LegacyIdentity(f, env)
  {
    hide Takes, TakesLegacy, Consistent, Get, MeansOneOf, MeansEither, MeansList, Contained;
    r := AddOneOf(q, Column(Submission, "id"), Nums(f.submissionIds));
    r := AddEqual(r, Column(Uploader, "id"), f.submitterId);
    r := AddTitle(r, f.title);
    if f.comment.Some? {
      r := ExcludeLegacyOf(r);
    }
    r := AddMultifilter(r, Column(Uploader, "username"), None, f.submitterUsername);
    if f.submitterUsername.Some? {
      r := ExcludeLegacyOf(r);
    }
    r := AddMultifilter(r, MetaColumn("platform"), Some(LegacyColumn("platform")), f.platform);
    r := AddLike(r, MetaColumn("library"), Some(LegacyColumn("library")), f.library);
  }

  method ExcludeLegacyOf(q: Compiled) returns (r: Compiled)
    requires Consistent(q)
    ensures Consistent(r)
    ensures forall env, subs :: Takes(r, env, subs) <==> Takes(q, env, subs)
    ensures forall env, subs :: !TakesLegacy(r, env, subs)
  {
    hide Takes, TakesLegacy, Consistent;
    r := ExcludeLegacy(q);
    NarrowsMeans(q, r);
  }

  /** The columns of the plain metadata filters, in the order of the loop. */
  function TextColumns(t: Texts): (columns: seq<(string, Option<string>)>)
    ensures |columns| == 12
  {
    [("series", t.series), ("developer", t.developer), ("publisher", t.publisher), ("play_mode", t.playMode),
     ("status", t.status), ("version", t.version), ("release_date", t.releaseDate), ("languages", t.languages),
     ("source", t.source), ("game_notes", t.gameNotes), ("curation_notes", t.curationNotes),
     ("original_description", t.originalDescription)]
  }

  ghost predicate MeansTexts(columns: seq<(string, Option<string>)>, env: Joined) {
    forall i | 0 <= i < |columns| :: MeansLike(Get(env, MetaColumn(columns[i].0)), columns[i].1)
  }

  /** Curation notes are not stored for legacy games. */
  predicate LegacyText(column: (string, Option<string>), env: Joined) {
    if column.0 == "curation_notes" then column.1.None? else MeansLike(Get(env, LegacyColumn(column.0)), column.1)
  }

  ghost predicate LegacyTexts(columns: seq<(string, Option<string>)>, env: Joined) {
    forall i | 0 <= i < |columns| :: LegacyText(columns[i], env)
  }

  method CompileTexts(q: Compiled, columns: seq<(string, Option<string>)>) returns (r: Compiled)
    requires Consistent(q)
    ensures Consistent(r)
    ensures forall env, subs :: Takes(r, env, subs) <==> Takes(q, env, subs) && MeansTexts(columns, env)
    ensures forall env, subs :: TakesLegacy(r, env, subs) <==> TakesLegacy(q, env, subs) && LegacyTexts(columns, env)
  {
    hide Takes, TakesLegacy, Consistent, Get, Contained;
    r := q;
    for i := 0 to |columns|
      invariant Consistent(r)
      invariant forall env, subs :: Takes(r, env, subs) <==> Takes(q, env, subs) && MeansTexts(columns[..i], env)
      invariant forall env, subs :: TakesLegacy(r, env, subs) <==>
                TakesLegacy(q, env, subs) && LegacyTexts(columns[..i], env)
    {
      TextsOneMore(columns, i);
      var (column, text) := columns[i];
      r := AddLike(r, MetaColumn(column), if column == "curation_notes" then None else Some(LegacyColumn(column)),
                   text);
    }
    assert columns[..|columns|] == columns;
  }

  lemma TextsOneMore(columns: seq<(string, Option<string>)>, i: nat)
    requires i < |columns|
    ensures forall env :: MeansTexts(columns[..i + 1], env) <==>
              MeansTexts(columns[..i], env) && MeansLike(Get(env, MetaColumn(columns[i].0)), columns[i].1)
    ensures forall env :: LegacyTexts(columns[..i + 1], env) <==>
              LegacyTexts(columns[..i], env) && LegacyText(columns[i], env)
  {
    hide MeansLike, LegacyText, Get;
    assert columns[..i + 1] == columns[..i] + [columns[i]];
  }

  /** With metadata at all, and with a nonempty list of additional applications, or without one. */
  predicate Applications(env: Joined, some: bool) {
    Get(env, MetaColumn("id")) != Null
    && (var list := Get(env, MetaColumn("additional_applications")); (list.List? && list.length > 0) == some)
  }

  ghost predicate MeansApplications(env: Joined, wish: Option<string>) {
    wish.Some? ==> Applications(env, wish.value == "yes")
  }

  ghost predicate MeansContents(f: Filter, env: Joined) {
    && MeansTexts(TextColumns(f.texts), env)
    && MeansList(Get(env, MetaColumn("tags")), f.tags)
    && MeansApplications(env, f.hasApplications)
    && MeansLike(Get(env, CacheColumn("original_filename_sequence")), f.originalFilename)
    && MeansLike(Get(env, CacheColumn("current_filename_sequence")), f.currentFilename)
    && MeansLike(Get(env, CacheColumn("md5sum_sequence")), f.md5)
    && MeansLike(Get(env, CacheColumn("sha256sum_sequence")), f.sha256)
    && MeansOneOf(Get(env, CacheColumn("bot_action")), Names(f.botActions))
    && MeansOneOf(Get(env, Column(Submission, "level")), Names(f.levels))
  }

  ghost predicate LegacyContents(f: Filter, env: Joined) {
    && LegacyTexts(TextColumns(f.texts), env)
    && MeansList(Get(env, LegacyColumn("tags")), f.tags)
    && f.hasApplications.None? && f.originalFilename.None? && f.currentFilename.None? && f.md5.None? && f.sha256.None?
    && f.botActions == [] && f.levels == []
  }

  lemma ApplicationsMean(some: bool, env: Joined, subs: Subscriptions)
    ensures var p := Both(IsNotNull(MetaColumn("id")), HasItems(MetaColumn("additional_applications"), some));
            Holes(p) == 0 && (Eval(p, [], env, subs) == True <==> Applications(env, some))
  {
    hide Get;
    var p := Both(IsNotNull(MetaColumn("id")), HasItems(MetaColumn("additional_applications"), some));
    var none: seq<Value> := [];
    assert none[..0] == [] && none[0..] == [];
    assert Eval(p, none, env, subs) == And(Eval(p.left, none, env, subs), Eval(p.right, none, env, subs));
  }

  method AddApplications(q: Compiled, wish: Option<string>) returns (r: Compiled)
    requires Consistent(q) && Among(wish, {"no", "yes"})
    ensures Consistent(r)
    ensures forall env, subs :: Takes(r, env, subs) <==> Takes(q, env, subs) && MeansApplications(env, wish)
    ensures forall env, subs :: TakesLegacy(r, env, subs) <==> TakesLegacy(q, env, subs) && wish.None?
  {
    hide Takes, TakesLegacy, Consistent, Eval, Applications;
    var some := wish != Some("no");
    var p := Both(IsNotNull(MetaColumn("id")), HasItems(MetaColumn("additional_applications"), some));
    forall env, subs ensures Eval(p, [], env, subs) == True <==> Applications(env, some) {
      ApplicationsMean(some, env, subs);
    }
    r := AddOnlyIf(q, wish.Some?, p, []);
  }

  method CompileContents(q: Compiled, f: Filter) returns (r: Compiled)
    requires Consistent(q) && Among(f.hasApplications, {"no", "yes"})
    ensures Consistent(r)
    ensures forall env, subs :: Takes(r, env, subs) <==> Takes(q, env, subs) && MeansContents(f, env)
    ensures forall env, subs :: TakesLegacy(r, env, subs) <==> TakesLegacy(q, env, subs) && LegacyContents(f, env)
  {
    hide Takes, TakesLegacy, Consistent, Get, MeansTexts, LegacyTexts, MeansList, MeansApplications, MeansOneOf,
         Contained;
    r := CompileTexts(q, TextColumns(f.texts));
    r := AddMultifilter(r, MetaColumn("tags"), Some(LegacyColumn("tags")), f.tags);
    r := AddApplications(r, f.hasApplications);
    r := AddLike(r, CacheColumn("original_filename_sequence"), None, f.originalFilename);
    r := AddLike(r, CacheColumn("current_filename_sequence"), None, f.currentFilename);
    r := AddLike(r, CacheColumn("md5sum_sequence"), None, f.md5);
    r := AddLike(r, CacheColumn("sha256sum_sequence"), None, f.sha256);
    r := AddOneOf(r, CacheColumn("bot_action"), Names(f.botActions));
    r := AddOneOf(r, Column(Submission, "level"), Names(f.levels));
  }

  // ---------------------------------------------------------------- reviewers

  ghost predicate MeansReviewers(s: Statuses, env: Joined) {
    && MeansAnyone(Get(env, CacheColumn("active_assigned_testing_ids")), s.testing, "unassigned")
    && MeansAnyone(Get(env, CacheColumn("active_assigned_verification_ids")), s.verification, "unassigned")
    && MeansAnyone(Get(env, CacheColumn("active_requested_changes_ids")), s.requested, "none")
    && MeansAnyone(Get(env, CacheColumn("active_approved_ids")), s.approved, "none")
    && MeansAnyone(Get(env, CacheColumn("active_verified_ids")), s.verified, "none")
  }

  ghost predicate MeansReviewer(s: Statuses, uid: int, env: Joined) {
    && MeansUser(Get(env, CacheColumn("active_assigned_testing_ids")), s.testing, "unassigned", uid)
    && MeansUser(Get(env, CacheColumn("active_assigned_verification_ids")), s.verification, "unassigned", uid)
    && MeansUser(Get(env, CacheColumn("active_requested_changes_ids")), s.requested, "none", uid)
    && MeansUser(Get(env, CacheColumn("active_approved_ids")), s.approved, "no", uid)
    && MeansUser(Get(env, CacheColumn("active_verified_ids")), s.verified, "no", uid)
  }

  method CompileAnyone(q: Compiled, s: Statuses) returns (r: Compiled)
    requires Consistent(q) && ValidStatuses(s, {"none", "approved"}, {"none", "verified"})
    ensures Consistent(r)
    ensures forall env, subs :: Takes(r, env, subs) <==> Takes(q, env, subs) && MeansReviewers(s, env)
    ensures forall env, subs :: TakesLegacy(r, env, subs) <==> TakesLegacy(q, env, subs) && s == NO_STATUSES
  {
    hide Takes, TakesLegacy, Consistent, Get, MeansAnyone;
    r := AddAnyone(q, CacheColumn("active_assigned_testing_ids"), s.testing, "unassigned", "assigned");
    r := AddAnyone(r, CacheColumn("active_assigned_verification_ids"), s.verification, "unassigned", "assigned");
    r := AddAnyone(r, CacheColumn("active_requested_changes_ids"), s.requested, "none", "ongoing");
    r := AddAnyone(r, CacheColumn("active_approved_ids"), s.approved, "none", "approved");
    r := AddAnyone(r, CacheColumn("active_verified_ids"), s.verified, "none", "verified");
  }

  method CompileReviewer(q: Compiled, s: Statuses, uid: int) returns (r: Compiled)
    requires Consistent(q) && ValidStatuses(s, {"no", "yes"}, {"no", "yes"})
    ensures Consistent(r)
    ensures forall env, subs :: Takes(r, env, subs) <==> Takes(q, env, subs) && MeansReviewer(s, uid, env)
    ensures forall env, subs :: TakesLegacy(r, env, subs) <==> TakesLegacy(q, env, subs) && s == NO_STATUSES
  {
    hide Takes, TakesLegacy, Consistent, Get, MeansUser;
    r := AddUser(q, CacheColumn("active_assigned_testing_ids"), s.testing, "unassigned", "assigned", uid);
    r := AddUser(r, CacheColumn("active_assigned_verification_ids"), s.verification, "unassigned", "assigned", uid);
    r := AddUser(r, CacheColumn("active_requested_changes_ids"), s.requested, "none", "ongoing", uid);
    r := AddUser(r, CacheColumn("active_approved_ids"), s.approved, "no", "yes", uid);
    r := AddUser(r, CacheColumn("active_verified_ids"), s.verified, "no", "yes", uid);
  }

  // ---------------------------------------------------------------- the remaining fields

  /** Distinct actions are looked for as parts of the text: "assign-testing" is also found in "unassign-testing". */
  predicate MeansFound(v: Value, actions: seq<string>) {
    actions != [] ==> v != Null && exists a | a in actions :: Contains(TextOf(v), a)
  }

  predicate MeansNotFound(v: Value, actions: seq<string>) {
    actions != [] ==> v != Null && forall a | a in actions :: !Contains(TextOf(v), a)
  }

  predicate MeansNotMe(v: Value, wish: Option<string>, uid: int) {
    wish.Some? ==> v != Null && v != Num(uid)
  }

  predicate MeansText(v: Value, text: Option<string>) {
    text.Some? ==> v == Text(text.value)
  }

  ghost predicate MeansHistory(f: Filter, uid: int, env: Joined) {
    && MeansText(Get(env, MetaColumn("extreme")), f.isExtreme)
    && MeansFound(Get(env, CacheColumn("distinct_actions")), f.distinctActions)
    && MeansNotFound(Get(env, CacheColumn("distinct_actions")), f.distinctActionsNot)
    && MeansLike(Get(env, MetaColumn("launch_command")), f.launchCommand)
    && MeansNotMe(Get(env, Column(NewestFile, "fk_user_id")), f.lastUploaderNotMe, uid)
    && MeansNotMe(Get(env, Column(OldestFile, "fk_user_id")), f.submitterNotMe, uid)
  }

  ghost predicate LegacyHistory(f: Filter, env: Joined) {
    && MeansText(Get(env, LegacyColumn("extreme")), f.isExtreme)
    && f.distinctActions == [] && f.distinctActionsNot == []
    && MeansLike(Get(env, LegacyColumn("launch_command")), f.launchCommand)
    && f.lastUploaderNotMe.None? && f.submitterNotMe.None?
  }

  method AddExtreme(q: Compiled, text: Option<string>) returns (r: Compiled)
    requires Consistent(q)
    ensures Consistent(r)
    ensures forall env, subs :: Takes(r, env, subs) <==>
              Takes(q, env, subs) && MeansText(Get(env, MetaColumn("extreme")), text)
    ensures forall env, subs :: TakesLegacy(r, env, subs) <==>
              TakesLegacy(q, env, subs) && MeansText(Get(env, LegacyColumn("extreme")), text)
  {
    hide Takes, TakesLegacy, Consistent;
    r := q;
    if text.Some? {
      WithMeans(r, Equals(MetaColumn("extreme")), [Text(text.value)]);
      r := With(r, Equals(MetaColumn("extreme")), [Text(text.value)]);
      WithLegacyMeans(r, Equals(LegacyColumn("extreme")), [Text(text.value)]);
      r := WithLegacy(r, Equals(LegacyColumn("extreme")), [Text(text.value)]);
    }
  }

  lemma NamesFound(text: string, actions: seq<string>)
    ensures FoundIn(text, Names(actions)) <==> exists a | a in actions :: Contains(text, a)
  {
    hide Contains;
    if a :| a in actions && Contains(text, a) {
      var i :| 0 <= i < |actions| && actions[i] == a;
      assert Names(actions)[i] in Names(actions) && Names(actions)[i] == Text(a);
    }
    if v :| v in Names(actions) && Contains(text, TextOf(v)) {
      var i :| 0 <= i < |actions| && Names(actions)[i] == v;
      assert actions[i] in actions && Contains(text, actions[i]);
    }
  }

  method AddFound(q: Compiled, c: Column, actions: seq<string>, present: bool) returns (r: Compiled)
    requires Consistent(q) && c.alias in TABLES
    ensures Consistent(r)
    ensures forall env, subs :: Takes(r, env, subs) <==>
              Takes(q, env, subs) &&
                (if present then MeansFound(Get(env, c), actions) else MeansNotFound(Get(env, c), actions))
    ensures forall env, subs :: TakesLegacy(r, env, subs) <==> TakesLegacy(q, env, subs) && actions == []
  {
    hide Takes, TakesLegacy, Consistent, Contains, FoundIn, Get;
    forall env: Joined
      ensures FoundIn(TextOf(Get(env, c)), Names(actions)) <==> exists a | a in actions ::
                Contains(TextOf(Get(env, c)), a)
    {
      NamesFound(TextOf(Get(env, c)), actions);
    }
    var p := if present then Finds(c, |actions|) else NotFinds(c, |actions|);
    r := AddOnlyIf(q, actions != [], p, Names(actions));
  }

  method AddNotMe(q: Compiled, c: Column, wish: Option<string>, uid: int) returns (r: Compiled)
    requires Consistent(q) && c.alias in TABLES && Among(wish, {"yes"})
    ensures Consistent(r)
    ensures forall env, subs :: Takes(r, env, subs) <==> Takes(q, env, subs) && MeansNotMe(Get(env, c), wish, uid)
    ensures forall env, subs :: TakesLegacy(r, env, subs) <==> TakesLegacy(q, env, subs) && wish.None?
  {
    hide Takes, TakesLegacy, Consistent;
    r := AddOnlyIf(q, wish.Some?, Differs(c), [Num(uid)]);
  }

  method CompileHistory(q: Compiled, f: Filter, uid: int) returns (r: Compiled)
    requires Consistent(q) && Among(f.lastUploaderNotMe, {"yes"}) && Among(f.submitterNotMe, {"yes"})
    ensures Consistent(r)
    ensures forall env, subs :: Takes(r, env, subs) <==> Takes(q, env, subs) && MeansHistory(f, uid, env)
    ensures forall env, subs :: TakesLegacy(r, env, subs) <==> TakesLegacy(q, env, subs) && LegacyHistory(f, env)
  {
    hide Takes, TakesLegacy, Consistent, Get, MeansFound, MeansNotFound, MeansLike, MeansNotMe, MeansText;
    r := AddExtreme(q, f.isExtreme);
    r := AddFound(r, CacheColumn("distinct_actions"), f.distinctActions, true);
    r := AddFound(r, CacheColumn("distinct_actions"), f.distinctActionsNot, false);
    r := AddLike(r, MetaColumn("launch_command"), Some(LegacyColumn("launch_command")), f.launchCommand);
    LikeOnLegacy();
    r := AddNotMe(r, Column(NewestFile, "fk_user_id"), f.lastUploaderNotMe, uid);
    r := AddNotMe(r, Column(OldestFile, "fk_user_id"), f.submitterNotMe, uid);
  }

  lemma LikeOnLegacy()
    ensures forall v, text: Option<string> :: MeansLike(v, text) <==> (text.Some? ==> Contained(v, text.value))
  {
  }

  ghost predicate MeansSubscribed(env: Joined, wish: Option<string>, uid: int, subs: Subscriptions) {
    wish.Some? ==>
      var id := Get(env, Column(Submission, "id"));
      (id.Num? && (id.n, uid) in subs) == (wish.value == "yes")
  }

  predicate MeansFlag(v: Value, wish: Option<string>) {
    wish.Some? ==> v == Num(if wish.value == "yes" then 1 else 0)
  }

  predicate MeansFrozen(v: Value, wish: Option<string>) {
    wish.Some? ==> (v != Null) == (wish.value == "yes")
  }

  ghost predicate MeansRest(f: Filter, uid: int, env: Joined, subs: Subscriptions) {
    && MeansSubscribed(env, f.subscribedMe, uid, subs)
    && MeansEqual(Get(env, Column(Updater, "id")), f.updatedById)
    && MeansFlag(Get(env, MetaColumn("game_exists")), f.isContentChange)
    && MeansFrozen(Get(env, Column(Submission, "frozen_at")), f.isFrozen)
  }

  predicate LegacyRest(f: Filter) {
    f.subscribedMe.None? && !f.excludeLegacy && f.updatedById.None? && f.isContentChange.None? && f.isFrozen.None?
  }

  method AddSubscribed(q: Compiled, wish: Option<string>, uid: int) returns (r: Compiled)
    requires Consistent(q) && Among(wish, {"no", "yes"})
    ensures Consistent(r)
    ensures forall env, subs :: Takes(r, env, subs) <==> Takes(q, env, subs) && MeansSubscribed(env, wish, uid, subs)
    ensures forall env, subs :: TakesLegacy(r, env, subs) <==> TakesLegacy(q, env, subs) && wish.None?
  {
    hide Takes, TakesLegacy, Consistent;
    r := AddOnlyIf(q, wish.Some?, Subscription(wish == Some("yes")), [Num(uid)]);
  }

  method AddFlag(q: Compiled, c: Column, wish: Option<string>) returns (r: Compiled)
    requires Consistent(q) && c.alias in TABLES && Among(wish, {"no", "yes"})
    ensures Consistent(r)
    ensures forall env, subs :: Takes(r, env, subs) <==> Takes(q, env, subs) && MeansFlag(Get(env, c), wish)
    ensures forall env, subs :: TakesLegacy(r, env, subs) <==> TakesLegacy(q, env, subs) && wish.None?
  {
    hide Takes, TakesLegacy, Consistent;
    r := AddOnlyIf(q, wish.Some?, IsTrue(c, wish == Some("yes")), []);
  }

  method AddFrozen(q: Compiled, c: Column, wish: Option<string>) returns (r: Compiled)
    requires Consistent(q) && c.alias in TABLES && Among(wish, {"no", "yes"})
    ensures Consistent(r)
    ensures forall env, subs :: Takes(r, env, subs) <==> Takes(q, env, subs) && MeansFrozen(Get(env, c), wish)
    ensures forall env, subs :: TakesLegacy(r, env, subs) <==> TakesLegacy(q, env, subs) && wish.None?
  {
    hide Takes, TakesLegacy, Consistent;
    r := AddOnlyIf(q, wish.Some?, if wish == Some("no") then IsNull(c) else IsNotNull(c), []);
  }

  method CompileRest(q: Compiled, f: Filter, uid: int) returns (r: Compiled)
    requires Consistent(q) && Among(f.subscribedMe, {"no", "yes"}) && Among(f.isContentChange, {"no", "yes"})
    requires Among(f.isFrozen, {"no", "yes"})
    ensures Consistent(r)
    ensures forall env, subs :: Takes(r, env, subs) <==> Takes(q, env, subs) && MeansRest(f, uid, env, subs)
    ensures forall env, subs :: TakesLegacy(r, env, subs) <==> TakesLegacy(q, env, subs) && LegacyRest(f)
  {
    hide Takes, TakesLegacy, Consistent, Get, MeansSubscribed, MeansEqual, MeansFlag, MeansFrozen;
    r := AddSubscribed(q, f.subscribedMe, uid);
    if f.excludeLegacy {
      r := ExcludeLegacyOf(r);
    }
    r := AddEqual(r, Column(Updater, "id"), f.updatedById);
    r := AddFlag(r, MetaColumn("game_exists"), f.isContentChange);
    r := AddFrozen(r, Column(Submission, "frozen_at"), f.isFrozen);
  }

  // ---------------------------------------------------------------- the whole filter

  /** What a validated filter means for one joined row of a submission. */
  ghost predicate Means(f: Filter, uid: int, env: Joined, subs: Subscriptions) {
    && MeansIdentity(f, env) && MeansContents(f, env)
    && MeansReviewers(f.any, env) && MeansReviewer(f.me, uid, env)
    && (f.userId.Some? ==> MeansReviewer(f.user, f.userId.value, env))
    && MeansHistory(f, uid, env) && MeansRest(f, uid, env, subs)
  }

  /** A legacy game is found only by filters on what legacy games have. */
  ghost predicate LegacyMeans(f: Filter, env: Joined) {
    && LegacyIdentity(f, env) && LegacyContents(f, env)
    && f.any == NO_STATUSES && f.me == NO_STATUSES && f.user == NO_STATUSES
    && LegacyHistory(f, env) && LegacyRest(f)
  }

  const EMPTY: Compiled := Compiled([], [], [], [])

  lemma EmptyTakesAll()
    ensures Consistent(EMPTY) && forall env, subs :: Takes(EMPTY, env, subs) && TakesLegacy(EMPTY, env, subs)
  {
  }

  /**
   The compilation of a validated filter: as many arguments as placeholders on either side, and
   with the arguments in their places the conditions are true of exactly what the filter means.
   */
  method Compile(f: Filter, uid: int) returns (r: Compiled)
    requires Checked(f)
    ensures Consistent(r)
    ensures forall env, subs :: Takes(r, env, subs) <==> Means(f, uid, env, subs)
    ensures forall env, subs :: TakesLegacy(r, env, subs) <==> LegacyMeans(f, env)
  {
    hide Takes, TakesLegacy, Consistent, MeansIdentity, LegacyIdentity, MeansContents, LegacyContents, MeansReviewers,
         MeansReviewer, MeansHistory, LegacyHistory, MeansRest, LegacyRest, ValidStatuses;
    EmptyTakesAll();
    r := EMPTY;
    r := CompileIdentity(r, f);
    r := CompileContents(r, f);
    r := CompileAnyone(r, f.any);
    r := CompileReviewer(r, f.me, uid);
    if f.userId.Some? {
      r := CompileReviewer(r, f.user, f.userId.value);
    }
    r := CompileHistory(r, f, uid);
    r := CompileRest(r, f, uid);
  }

  // ---------------------------------------------------------------- Validate

  /** Validate, on a copy: the unzeroed filter, or nothing if a check fails. */
  method Validate(f: Filter) returns (r: Option<Filter>)
    ensures r == if Checked(Unzeroed(f)) then Some(Unzeroed(f)) else None
    ensures forall g | Cleans(f, g) :: r == if Checked(g) then Some(g) else None
  {
    hide Unzeroed, Checked, Cleans;
    UnzeroedCleans(f);
    forall g | Cleans(f, g) ensures g == Unzeroed(f) { CleansOneWay(f, g, Unzeroed(f)); }
    r := ValidateUnzeroed(f);
  }

  method ValidateUnzeroed(f: Filter) returns (r: Option<Filter>)
    ensures r == if Checked(Unzeroed(f)) then Some(Unzeroed(f)) else None
  {
    hide Unzeroed;
    var g := Unzeroed(f);
    for i := 0 to |g.submissionIds|
      invariant forall k | 0 <= k < i :: g.submissionIds[k] >= 1
    {
      if g.submissionIds[i] < 1 {
        return None;
      }
    }
    if g.submitterId.Some? && g.submitterId.value < 1 { return None; }
    if g.resultsPerPage.Some? && g.resultsPerPage.value < 1 { return None; }
    if g.resultsPerPage.Some? && g.resultsPerPage.value > 1000 { return None; }
    if g.page.Some? && g.page.value < 1 { return None; }
    if !ValidStatuses(g.any, {"none", "approved"}, {"none", "verified"}) { return None; }
    if !ValidStatuses(g.me, {"no", "yes"}, {"no", "yes"}) { return None; }
    if g.userId.Some? && g.userId.value < 1 { return None; }
    if !ValidStatuses(g.user, {"no", "yes"}, {"no", "yes"}) { return None; }
    if g.userId.None? && g.user != NO_STATUSES { return None; }
    if !Among(g.isExtreme, {"no", "yes", "No", "Yes"}) { return None; }
    if !Among(g.isContentChange, {"no", "yes"}) { return None; }
    if !Among(g.isFrozen, {"no", "yes"}) { return None; }
    if !Among(g.hasApplications, {"no", "yes"}) { return None; }
    if !Among(g.lastUploaderNotMe, {"yes"}) { return None; }
    if !Among(g.submitterNotMe, {"yes"}) { return None; }
    if !Among(g.orderBy, {"uploaded", "updated", "size", "title", "platform", "library"}) { return None; }
    if !Among(g.ascDesc, {"asc", "desc"}) { return None; }
    if !Among(g.subscribedMe, {"no", "yes"}) { return None; }
    return Some(g);
  }

  /** Validating a validated filter changes nothing, so the HTTP layer and the query may both do it. */
  lemma ValidateTwice(f: Filter)
    ensures Unzeroed(Unzeroed(f)) == Unzeroed(f)
  {
  }

  /**
   A text without wildcards selects the rows whose column contains it; NULL is never selected, not even by
   an exclusion.
   */
  lemma PlainTextMeansContains(v: Value, text: string)
    requires Plain(text)
    ensures Contained(v, text) <==> v != Null && Contains(TextOf(v), text)
  {
    PlainLikeIsContains(TextOf(v), text);
  }

  // ---------------------------------------------------------------- distinct actions as text

  /** GROUP_CONCAT of the distinct actions. */
  function Concatenated(actions: seq<string>): string
    requires actions != []
  {
    if |actions| == 1 then actions[0] else actions[0] + "," + Concatenated(actions[1..])
  }

  /** What the pieces of a comma list are: the texts without a comma that, with commas between them, make it up. */
  lemma SplitExactly(s: string, pieces: seq<string>)
    ensures pieces != [] && Concatenated(pieces) == s && NoCommas(pieces) <==> pieces == Split(s)
  {
    SplitJoins(s);
    if pieces != [] && Concatenated(pieces) == s && NoCommas(pieces) {
      SplitIsOnlyWay(s, pieces);
    }
  }

  predicate NoCommas(pieces: seq<string>) {
    forall i | 0 <= i < |pieces| :: ',' !in pieces[i]
  }

  lemma JoinLonger(c: char, pieces: seq<string>)
    requires pieces != []
    ensures Concatenated([[c] + pieces[0]] + pieces[1..]) == [c] + Concatenated(pieces)
    ensures c != ',' && NoCommas(pieces) ==> NoCommas([[c] + pieces[0]] + pieces[1..])
  {
    var longer := [[c] + pieces[0]] + pieces[1..];
    assert longer[1..] == pieces[1..] && longer[0] == [c] + pieces[0];
  }

  lemma JoinMore(pieces: seq<string>)
    requires pieces != []
    ensures Concatenated([""] + pieces) == "," + Concatenated(pieces)
    ensures NoCommas(pieces) ==> NoCommas([""] + pieces)
  {
    var more := [""] + pieces;
    assert more[1..] == pieces && more[0] == "" && Concatenated(more) == "" + "," + Concatenated(pieces);
  }

  lemma {:induction false} SplitJoins(s: string)
    ensures Concatenated(Split(s)) == s && NoCommas(Split(s))
  {
    if s != "" {
      hide Concatenated, NoCommas;
      SplitJoins(s[1..]);
      JoinMore(Split(s[1..]));
      JoinLonger(s[0], Split(s[1..]));
    }
  }

  lemma {:induction false} SplitIsOnlyWay(s: string, pieces: seq<string>)
    requires pieces != [] && Concatenated(pieces) == s && NoCommas(pieces)
    ensures pieces == Split(s)
    decreases s
  {
    if s == "" {
      assert pieces == [""];
    } else if pieces[0] == "" {
      assert s == "," + Concatenated(pieces[1..]) && s[1..] == Concatenated(pieces[1..]);
      SplitIsOnlyWay(s[1..], pieces[1..]);
      assert pieces == [""] + pieces[1..];
    } else {
      var c, shorter := pieces[0][0], [pieces[0][1..]] + pieces[1..];
      assert shorter[0] == pieces[0][1..] && shorter[1..] == pieces[1..] && pieces[0] == [c] + shorter[0];
      assert pieces == [pieces[0]] + pieces[1..];
      JoinLonger(c, shorter);
      assert NoCommas(shorter) && c in pieces[0];
      SplitIsOnlyWay(s[1..], shorter);
    }
  }

  predicate AllBlank(s: string) {
    forall i | 0 <= i < |s| :: Blank(s[i])
  }

  /** Trimming takes the white space off both ends and nothing else. */
  lemma TrimExactly(s: string) returns (front: string, back: string)
    ensures s == front + Trim(s) + back && AllBlank(front) && AllBlank(back)
    ensures Trim(s) != "" ==> !Blank(Trim(s)[0]) && !Blank(Trim(s)[|Trim(s)| - 1])
  {
    var left := TrimLeft(s);
    front := TrimmedLeft(s);
    back := TrimmedRight(left);
    assert left != "" && Trim(s) != "" ==> Trim(s)[0] == left[0];
  }

  lemma {:induction false} TrimmedLeft(s: string) returns (front: string)
    ensures s == front + TrimLeft(s) && AllBlank(front) && (TrimLeft(s) != "" ==> !Blank(TrimLeft(s)[0]))
  {
    front := "";
    if s != "" && Blank(s[0]) {
      var rest := TrimmedLeft(s[1..]);
      front := [s[0]] + rest;
    }
  }

  lemma {:induction false} TrimmedRight(s: string) returns (back: string)
    ensures s == TrimRight(s) + back && AllBlank(back)
    ensures TrimRight(s) != "" ==> !Blank(TrimRight(s)[|TrimRight(s)| - 1])
  {
    back := "";
    if s != "" && Blank(s[|s| - 1]) {
      var rest := TrimmedRight(s[..|s| - 1]);
      back := rest + [s[|s| - 1]];
    }
  }

  lemma {:induction false} ContainsAcrossComma(s: string, t: string, part: string)
    requires ',' !in part
    ensures Contains(s + "," + t, part) <==> Contains(s, part) || Contains(t, part)
  {
    var whole := s + "," + t;
    assert whole[|s|] == ',' && whole[..|s|] == s;
    assert |part| > |s| ==> part[|s|] in part;
    assert part <= whole ==> part <= s by {
      if part <= whole && |part| <= |s| { assert whole[..|part|] == s[..|part|]; }
    }
    if part <= s { assert part <= whole; }
    if s == "" {
      assert whole[1..] == t;
      assert part <= whole ==> part == "";
    } else {
      assert whole[1..] == s[1..] + "," + t;
      ContainsAcrossComma(s[1..], t, part);
    }
  }

  /**
   What "distinct action" finds exactly: the submissions with some action whose name contains the
   text, which may be another action than the one asked for.
   */
  lemma {:induction false} FoundMeansPartOfAnAction(actions: seq<string>, part: string)
    requires actions != [] && ',' !in part
    ensures Contains(Concatenated(actions), part) <==> exists i :: 0 <= i < |actions| && Contains(actions[i], part)
  {
    hide Contains;
    if |actions| > 1 {
      ContainsAcrossComma(actions[0], Concatenated(actions[1..]), part);
      FoundMeansPartOfAnAction(actions[1..], part);
      assert forall i | 1 <= i < |actions| :: actions[i] == actions[1..][i - 1];
      if i :| 0 <= i < |actions| && Contains(actions[i], part) && i > 0 {
        assert Contains(actions[1..][i - 1], part);
      }
    } else {
      assert actions == [actions[0]];
    }
  }

  lemma UnassignedIsFoundAsAssigned()
    ensures MeansFound(Text("unassign-testing"), ["assign-testing"])
  {
    assert "unassign-testing"[1..] == "nassign-testing" && "nassign-testing"[1..] == "assign-testing";
    assert Contains("assign-testing", "assign-testing");
    assert Contains("nassign-testing", "assign-testing");
    assert "assign-testing" in ["assign-testing"];
  }
}