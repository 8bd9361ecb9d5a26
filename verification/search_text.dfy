/**
 The text of the conditions of a search and the scan for table names in it
 (database/submission_search_query.go). Texts are as the query has them, up to spaces, and
 parentheses around combined conditions.
 */
module SearchText {
  import opened Sql

  function Name(a: Alias): string {
    match a
    case Submission => "submission"
    case Cache => "submission_cache"
    case OldestFile => "oldest_file"
    case NewestFile => "newest_file"
    case NewestComment => "newest_comment"
    case Uploader => "uploader"
    case Updater => "updater"
    case Meta => "meta"
    case Legacy => "masterdb_game"
  }

  /** What the scan looks for. */
  function Qualifier(a: Alias): string {
    Name(a) + "."
  }

  function Qualified(table: string, column: string): string {
    table + "." + column
  }

  function Repeat(s: string, n: nat): string {
    if n == 0 then "" else Repeat(s, n - 1) + s
  }

  const LEVEL: Column := Column(Submission, "level")

  predicate OnColumn(p: Pred) {
    !p.Never? && !p.Subscription? && !p.Both? && !p.Either? && !p.HasItems?
  }

  /** The text of a condition on one column, before the column. */
  function Lead(p: Pred): string {
    match p
    case OneOf(c, _) => if c == LEVEL then "((SELECT name" + " FROM submission_level" + " WHERE id =" else "("
    case InSet(_) => "(FIND_IN_SET(?,"
    case NotInSet(_) => "(COALESCE(FIND_IN_SET(?,"
    case _ => "("
  }

  /** And after it. */
  function Trail(p: Pred): string {
    match p
    case Equals(_) => "= ?)"
    case Differs(_) => "!= ?)"
    case IsTrue(_, expected) => if expected then "= true)" else "= false)"
    case Matches(_) => "LIKE ?)"
    case NotMatches(_) => "NOT LIKE ?)"
    case OneOf(c, n) => (if c == LEVEL then ") " else "") + "IN(?" + Repeat(",?", Less(n)) + "))"
    case IsNull(_) => "IS NULL)"
    case IsNotNull(_) => "IS NOT NULL)"
    case InSet(_) => ") > 0)"
    case NotInSet(_) => "), 0) = 0)"
    case Finds(_, n) => "REGEXP CONCAT(CONCAT(?)" + Repeat(", '|', CONCAT(?)", Less(n)) + "))"
    case NotFinds(_, n) => "NOT REGEXP CONCAT(CONCAT(?)" + Repeat(", '|', CONCAT(?)", Less(n)) + "))"
    case _ => ")"
  }

  function Less(n: nat): nat {
    if n == 0 then 0 else n - 1
  }

  function ColumnText(p: Pred): string
    requires OnColumn(p) || p.HasItems?
  {
    Qualified(Name(p.c.alias), if p.c == LEVEL then "fk_submission_level_id" else p.c.name)
  }

  function Spaced(lead: string, text: string, trail: string): string {
    lead + " " + text + " " + trail
  }

  function SubscriptionLead(present: bool): string {
    (if present then "" else "NOT ") + "EXISTS (SELECT 1 FROM" + " submission_notification" + "_subscription sns WHERE"
  }

  const ITEMS_LEAD := "((CASE WHEN JSON_TYPE("
  const ITEMS_MID := ") = 'ARRAY' THEN" + " JSON_LENGTH("

  function ItemsTrail(some: bool): string {
    if some then ") ELSE 0 END) > 0)" else ") ELSE 0 END) = 0)"
  }

  function Render(p: Pred): string {
    match p
    case Never => "(1 = 0)"
    case Subscription(present) =>
      Spaced(Spaced(Spaced(SubscriptionLead(present), Qualified("sns", "fk_submission_id"), "="),
                    Qualified(Name(Submission), "id"), "AND"),
             Qualified("sns", "fk_user_id"), "= ?)")
    case HasItems(_, some) => Spaced(Spaced(ITEMS_LEAD, ColumnText(p), ITEMS_MID), ColumnText(p), ItemsTrail(some))
    case Both(l, r) => "(" + Render(l) + " AND " + Render(r) + ")"
    case Either(l, r) => "(" + Render(l) + " OR " + Render(r) + ")"
    case _ => Spaced(Lead(p), ColumnText(p), Trail(p))
  }

  /** strings.Join(filters, " AND "). */
  function RenderAll(preds: seq<Pred>): string {
    if preds == [] then ""
    else if |preds| == 1 then Render(preds[0])
    else RenderAll(preds[..|preds| - 1]) + " AND " + Render(preds[|preds| - 1])
  }

  // ---------------------------------------------------------------- the scan

  const SCANNED: set<Alias> := {Cache, OldestFile, NewestFile, NewestComment, Uploader, Updater, Meta}

  function Scanned(text: string): set<Alias> {
    set a | a in SCANNED && Contains(text, Qualifier(a))
  }

  // ---------------------------------------------------------------- occurrences in texts put together

  predicate Separator(c: char) {
    c == ' ' || c == '(' || c == ')'
  }

  /** A text that no occurrence of which can reach across a separator. */
  ghost predicate Word(part: string) {
    part != "" && ' ' !in part && '(' !in part && ')' !in part
  }

  lemma PrefixAt(part: string, s: string, i: nat)
    requires i < |part|
    ensures part <= s ==> |s| > i && s[i] == part[i] && part[i] in part
  {
  }

  lemma {:induction false} SplitBefore(a: string, b: string, part: string)
    requires Word(part) && (b == "" || Separator(b[0]))
    ensures Contains(a + b, part) <==> Contains(a, part) || Contains(b, part)
  {
    if a == "" {
      assert a + b == b;
    } else {
      assert (a + b)[1..] == a[1..] + b;
      SplitBefore(a[1..], b, part);
      if |part| > |a| && b != "" { PrefixAt(part, a + b, |a|); }
    }
  }

  lemma {:induction false} SplitAfter(a: string, b: string, part: string)
    requires Word(part) && (a == "" || Separator(a[|a| - 1]))
    ensures Contains(a + b, part) <==> Contains(a, part) || Contains(b, part)
  {
    if a == "" {
      assert a + b == b;
    } else {
      assert (a + b)[1..] == a[1..] + b;
      SplitAfter(a[1..], b, part);
      if |part| >= |a| { PrefixAt(part, a + b, |a| - 1); }
    }
  }

  predicate DotFree(s: string) {
    '.' !in s
  }

  lemma {:induction false} NothingWithoutDot(s: string, name: string)
    requires DotFree(s)
    ensures !Contains(s, name + ".")
  {
    PrefixAt(name + ".", s, |name|);
    if s != "" { NothingWithoutDot(s[1..], name); }
  }

  predicate EndsWith(s: string, end: string) {
    |end| <= |s| && s[|s| - |end|..] == end
  }

  lemma FirstDot(table: string, column: string, name: string)
    requires DotFree(table) && DotFree(name)
    ensures name + "." <= Qualified(table, column) <==> name == table
  {
    var text := Qualified(table, column);
    assert text[|table|] == '.' && text[..|table|] == table && text == (table + ".") + column;
    assert |name| < |table| ==> text[|name|] == table[|name|];
    PrefixAt(name + ".", text, |name|);
    assert name + "." <= text ==> text[..|name|] == name;
    if |name| > |table| { PrefixAt(name + ".", text, |table|); }
  }

  /** A qualified column holds the qualifier of another table only if that table's name ends its own. */
  lemma {:induction false} QualifiedHolds(table: string, column: string, name: string)
    requires DotFree(table) && DotFree(column) && DotFree(name)
    ensures Contains(Qualified(table, column), name + ".") <==> EndsWith(table, name)
  {
    var text := Qualified(table, column);
    FirstDot(table, column, name);
    if table == "" {
      assert text[1..] == column;
      NothingWithoutDot(column, name);
    } else {
      assert text[1..] == Qualified(table[1..], column);
      QualifiedHolds(table[1..], column, name);
      assert EndsWith(table, name) <==> name == table || EndsWith(table[1..], name);
    }
  }

  predicate Letters(s: string) {
    forall i | 0 <= i < |s| :: s[i] == '_' || 'a' <= s[i] <= 'z'
  }

  lemma NamesAreLetters(a: Alias)
    ensures Letters(Name(a))
  {
  }

  lemma LettersMakeWords(s: string)
    requires Letters(s)
    ensures DotFree(s) && Word(s + ".")
  {
  }

  lemma NamesAreWords(a: Alias)
    ensures Word(Qualifier(a)) && DotFree(Name(a))
  {
    NamesAreLetters(a);
    LettersMakeWords(Name(a));
  }

  /** No table name ends another. */
  lemma NamesApart(a: Alias, b: Alias)
    requires a in SCANNED
    ensures EndsWith(Name(b), Name(a)) <==> a == b
    ensures !EndsWith("sns", Name(a))
  {
  }

  // ---------------------------------------------------------------- the scan finds the tables mentioned

  predicate PlainNames(p: Pred) {
    match p
    case Never => true
    case Subscription(_) => true
    case Both(l, r) => PlainNames(l) && PlainNames(r)
    case Either(l, r) => PlainNames(l) && PlainNames(r)
    case _ => DotFree(p.c.name)
  }

  lemma {:induction false} DotFreeRepeat(s: string, n: nat)
    requires DotFree(s)
    ensures DotFree(Repeat(s, n))
  {
    if n > 0 { DotFreeRepeat(s, n - 1); }
  }

  lemma LeadIsPlain(p: Pred)
    ensures DotFree(Lead(p))
  {
  }

  lemma TrailIsPlain(p: Pred)
    ensures DotFree(Trail(p))
  {
    hide Repeat;
    if p.OneOf? || p.Finds? || p.NotFinds? { ListTrailIsPlain(p); }
  }

  lemma ListTrailIsPlain(p: Pred)
    requires p.OneOf? || p.Finds? || p.NotFinds?
    ensures DotFree(Trail(p))
  {
    hide Repeat;
    var more := if p.OneOf? then ",?" else ", '|', CONCAT(?)";
    assert DotFree(more);
    DotFreeRepeat(more, Less(p.n));
  }

  /** Around a text set off by separators, a qualifier is found in one of the three parts. */
  lemma ThreeParts(lead: string, text: string, trail: string, a: Alias)
    requires lead == "" || Separator(lead[|lead| - 1])
    requires trail == "" || Separator(trail[0])
    ensures Contains(lead + text + trail, Qualifier(a))
       <==> Contains(lead, Qualifier(a)) || Contains(text, Qualifier(a)) || Contains(trail, Qualifier(a))
  {
    hide Contains, Qualifier, Word;
    NamesAreWords(a);
    SplitBefore(lead + text, trail, Qualifier(a));
    SplitAfter(lead, text, Qualifier(a));
  }

  lemma SetOff(lead: string, text: string, trail: string, a: Alias)
    ensures Contains(Spaced(lead, text, trail), Qualifier(a))
       <==> Contains(lead, Qualifier(a)) || Contains(text, Qualifier(a)) || Contains(trail, Qualifier(a))
  {
    hide Contains, Qualifier, Word;
    NamesAreWords(a);
    ThreeParts(lead + " ", text, " " + trail, a);
    SplitBefore(lead, " ", Qualifier(a));
    SplitAfter(" ", trail, Qualifier(a));
    NothingIn(" ", a);
    assert lead + " " + text + " " + trail == (lead + " ") + text + (" " + trail);
  }

  lemma NothingIn(s: string, a: Alias)
    requires DotFree(s)
    ensures !Contains(s, Qualifier(a))
  {
    NothingWithoutDot(s, Name(a));
  }

  lemma OwnQualifier(a: Alias, column: string)
    ensures Contains(Qualified(Name(a), column), Qualifier(a))
  {
    assert Qualified(Name(a), column) == Qualifier(a) + column;
  }

  lemma QualifiedTable(b: Alias, column: string, a: Alias)
    requires a in SCANNED
    ensures a == b ==> Contains(Qualified(Name(b), column), Qualifier(a))
    ensures DotFree(column) && Contains(Qualified(Name(b), column), Qualifier(a)) ==> a == b
  {
    hide Contains, Qualified, EndsWith, DotFree, Name;
    OwnQualifier(b, column);
    NamesApart(a, b);
    NamesAreWords(a);
    NamesAreWords(b);
    if DotFree(column) { QualifiedHolds(Name(b), column, Name(a)); }
  }

  lemma ColumnHolds(p: Pred, a: Alias)
    requires a in SCANNED && (OnColumn(p) || p.HasItems?)
    ensures a == p.c.alias ==> Contains(ColumnText(p), Qualifier(a))
    ensures DotFree(p.c.name) && Contains(ColumnText(p), Qualifier(a)) ==> a == p.c.alias
  {
    hide Contains, Qualified, Qualifier, Name;
    assert DotFree("fk_submission_level_id");
    hide DotFree;
    QualifiedTable(p.c.alias, if p.c == LEVEL then "fk_submission_level_id" else p.c.name, a);
  }

  lemma OnColumnHolds(p: Pred, a: Alias)
    requires a in SCANNED && OnColumn(p)
    ensures a in Mentions(p) ==> Contains(Render(p), Qualifier(a))
    ensures PlainNames(p) && Contains(Render(p), Qualifier(a)) ==> a in Mentions(p)
  {
    hide Contains, Qualifier, Lead, Trail, DotFree, Spaced;
    LeadIsPlain(p);
    TrailIsPlain(p);
    NothingIn(Lead(p), a);
    NothingIn(Trail(p), a);
    SetOff(Lead(p), ColumnText(p), Trail(p), a);
    ColumnHolds(p, a);
  }

  lemma HasItemsHolds(p: Pred, a: Alias)
    requires a in SCANNED && p.HasItems?
    ensures a in Mentions(p) ==> Contains(Render(p), Qualifier(a))
    ensures PlainNames(p) && Contains(Render(p), Qualifier(a)) ==> a in Mentions(p)
  {
    hide Contains, Qualifier, Qualified, Spaced, ColumnText, DotFree;
    ItemsArePlain(p.some);
    NothingIn(ITEMS_LEAD, a);
    NothingIn(ITEMS_MID, a);
    NothingIn(ItemsTrail(p.some), a);
    SetOff(ITEMS_LEAD, ColumnText(p), ITEMS_MID, a);
    SetOff(Spaced(ITEMS_LEAD, ColumnText(p), ITEMS_MID), ColumnText(p), ItemsTrail(p.some), a);
    ColumnHolds(p, a);
  }

  lemma SubscriptionHolds(p: Pred, a: Alias)
    requires a in SCANNED && p.Subscription?
    ensures !Contains(Render(p), Qualifier(a))
  {
    hide Contains, Qualifier, Qualified, Spaced, SubscriptionLead;
    var lead := SubscriptionLead(p.present);
    SubscriptionColumns(a);
    SubscriptionLeadIsPlain(p.present);
    NothingIn(lead, a);
    NothingIn("=", a);
    NothingIn("AND", a);
    NothingIn("= ?)", a);
    var one := Spaced(lead, Qualified("sns", "fk_submission_id"), "=");
    var two := Spaced(one, Qualified(Name(Submission), "id"), "AND");
    SetOff(lead, Qualified("sns", "fk_submission_id"), "=", a);
    SetOff(one, Qualified(Name(Submission), "id"), "AND", a);
    SetOff(two, Qualified("sns", "fk_user_id"), "= ?)", a);
  }

  lemma ItemsArePlain(some: bool)
    ensures DotFree(ITEMS_LEAD) && DotFree(ITEMS_MID) && DotFree(ItemsTrail(some))
  {
  }

  lemma SubscriptionLeadIsPlain(present: bool)
    ensures DotFree(SubscriptionLead(present))
  {
  }

  lemma SubscriptionColumns(a: Alias)
    requires a in SCANNED
    ensures !Contains(Qualified("sns", "fk_submission_id"), Qualifier(a))
    ensures !Contains(Qualified(Name(Submission), "id"), Qualifier(a))
    ensures !Contains(Qualified("sns", "fk_user_id"), Qualifier(a))
  {
    hide Contains, Qualified, EndsWith, Name;
    assert DotFree("fk_submission_id") && DotFree("id") && DotFree("fk_user_id") && DotFree("sns");
    hide DotFree;
    NamesApart(a, Submission);
    NamesAreWords(a);
    QualifiedTable(Submission, "id", a);
    QualifiedHolds("sns", "fk_submission_id", Name(a));
    QualifiedHolds("sns", "fk_user_id", Name(a));
  }

  /** A table mentioned by a condition is found in its text, and in a text with plain column names no other is. */
  lemma {:induction false} RenderHolds(p: Pred, a: Alias)
    requires a in SCANNED
    ensures a in Mentions(p) ==> Contains(Render(p), Qualifier(a))
    ensures PlainNames(p) && Contains(Render(p), Qualifier(a)) ==> a in Mentions(p)
  {
    hide Contains, Qualifier;
    match p
    case Both(l, r) =>
      RenderHolds(l, a);
      RenderHolds(r, a);
      CombinedHolds(Render(l), " AND ", Render(r), a);
    case Either(l, r) =>
      RenderHolds(l, a);
      RenderHolds(r, a);
      CombinedHolds(Render(l), " OR ", Render(r), a);
    case Never => NothingIn("(1 = 0)", a);
    case Subscription(_) => SubscriptionHolds(p, a);
    case HasItems(_, _) => HasItemsHolds(p, a);
    case _ => OnColumnHolds(p, a);
  }

  lemma CombinedHolds(l: string, mid: string, r: string, a: Alias)
    requires mid == " AND " || mid == " OR "
    ensures Contains("(" + l + mid + r + ")", Qualifier(a)) <==> Contains(l, Qualifier(a)) || Contains(r, Qualifier(a))
  {
    hide Contains, Qualifier;
    NothingIn("(", a);
    NothingIn(mid, a);
    NothingIn(")", a);
    ThreeParts("(", l, mid, a);
    ThreeParts("(" + l + mid, r, ")", a);
  }

  lemma {:induction false} RenderAllHolds(preds: seq<Pred>, a: Alias)
    requires a in SCANNED
    ensures a in AllMentions(preds) ==> Contains(RenderAll(preds), Qualifier(a))
    ensures (forall p | p in preds :: PlainNames(p)) && Contains(RenderAll(preds), Qualifier(a)) ==>
              a in AllMentions(preds)
  {
    hide Contains, Qualifier, Render, PlainNames;
    if preds == [] {
      NothingIn("", a);
    } else {
      var rest, last := preds[..|preds| - 1], preds[|preds| - 1];
      assert preds == rest + [last];
      RenderAllHolds(rest, a);
      RenderHolds(last, a);
      if |preds| > 1 {
        NothingIn("", a);
        NothingIn(" AND ", a);
        ThreeParts("", RenderAll(rest), " AND ", a);
        ThreeParts(RenderAll(rest) + " AND ", Render(last), "", a);
        assert "" + RenderAll(rest) + " AND " == RenderAll(rest) + " AND ";
        assert RenderAll(rest) + " AND " + Render(last) + "" == RenderAll(preds);
      }
    }
  }

  /**
   The scan of the text misses no table that the conditions mention; and it finds nothing else as
   long as no column name has a dot in it.
   */
  lemma ScanFindsMentioned(preds: seq<Pred>)
    requires Legacy !in AllMentions(preds)
    ensures AllMentions(preds) <= Scanned(RenderAll(preds)) + {Submission}
    ensures (forall p | p in preds :: PlainNames(p)) ==> Scanned(RenderAll(preds)) <= AllMentions(preds)
  {
    hide Contains, Qualifier, RenderAll, AllMentions, PlainNames;
    forall a | a in SCANNED
      ensures a in AllMentions(preds) ==> Contains(RenderAll(preds), Qualifier(a))
      ensures (forall p | p in preds :: PlainNames(p)) && Contains(RenderAll(preds), Qualifier(a)) ==>
                a in AllMentions(preds)
    {
      RenderAllHolds(preds, a);
    }
    forall a | a in AllMentions(preds) ensures a in SCANNED + {Submission} {
      assert a != Legacy;
    }
  }

  /** Text added behind a space adds what it holds itself. */
  lemma ScanOfMore(text: string, more: string)
    ensures Scanned(text + " " + more) == Scanned(text) + Scanned(more)
  {
    hide Contains, Qualifier;
    forall a ensures Contains(text + " " + more, Qualifier(a)) <==>
        Contains(text, Qualifier(a)) || Contains(more, Qualifier(a)) {
      NothingIn("", a);
      NothingIn(" ", a);
      ThreeParts("", text, " ", a);
      ThreeParts(text + " ", more, "", a);
      assert "" + text + " " == text + " ";
      assert text + " " + more + "" == text + " " + more;
    }
  }
}
