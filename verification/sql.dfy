/**
 As much of SQL as the submission search uses: values with NULL, three-valued logic, LIKE, and
 predicates with positional placeholders. Text comparison ignores collations; the id lists of
 the cache row are sets, its distinct actions a comma-separated text.
 */
module Sql {
  datatype Option<+T> = None | Some(value: T)

  datatype Value = Null | Num(n: int) | Text(s: string) | Ids(ids: set<int>) | List(length: nat)

  datatype Truth = True | False | Unknown

  function And(a: Truth, b: Truth): Truth {
    if a == False || b == False then False else if a == True && b == True then True else Unknown
  }

  function Or(a: Truth, b: Truth): Truth {
    if a == True || b == True then True else if a == False && b == False then False else Unknown
  }

  function Bool(b: bool): Truth {
    if b then True else False
  }

  function Known(v: Value, b: bool): Truth {
    if v == Null then Unknown else Bool(b)
  }

  // ---------------------------------------------------------------- text

  /** LIKE with `%`, `_` and the escape character. */
  predicate Like(text: string, pattern: string)
    decreases |pattern|, |text|
  {
    if pattern == "" then text == ""
    else if pattern[0] == '%' then Like(text, pattern[1..]) || (text != "" && Like(text[1..], pattern))
    else if text == "" then false
    else if pattern[0] == '_' then Like(text[1..], pattern[1..])
    else if pattern[0] == '\\' && |pattern| > 1 then text[0] == pattern[1] && Like(text[1..], pattern[2..])
    else text[0] == pattern[0] && Like(text[1..], pattern[1..])
  }

  predicate Contains(text: string, part: string) {
    part <= text || (text != "" && Contains(text[1..], part))
  }

  predicate Plain(part: string) {
    forall c | c in part :: c !in ['%', '_', '\\']
  }

  /** FormatLike. */
  function Around(part: string): string {
    "%" + part + "%"
  }

  lemma {:induction false} LikeAnything(text: string)
    ensures Like(text, "%")
  {
    assert "%"[1..] == "";
    if text != "" { LikeAnything(text[1..]); }
  }

  lemma {:induction false} LikePrefix(text: string, part: string)
    requires Plain(part)
    ensures Like(text, part + "%") <==> part <= text
  {
    if part == "" {
      assert part + "%" == "%";
      LikeAnything(text);
    } else {
      assert (part + "%")[1..] == part[1..] + "%" && (part + "%")[0] == part[0];
      assert part[0] in part && forall c | c in part[1..] :: c in part;
      if text != "" {
        LikePrefix(text[1..], part[1..]);
        assert part <= text <==> part[0] == text[0] && part[1..] <= text[1..];
      }
    }
  }

  /** A user's text without wildcards is found exactly where it occurs; wildcards in it stay wildcards. */
  lemma {:induction false} PlainLikeIsContains(text: string, part: string)
    requires Plain(part)
    ensures Like(text, Around(part)) <==> Contains(text, part)
  {
    assert Around(part)[1..] == part + "%" && Around(part)[0] == '%';
    LikePrefix(text, part);
    if text != "" { PlainLikeIsContains(text[1..], part); }
  }

  // ---------------------------------------------------------------- rows

  datatype Alias = Submission | Cache | OldestFile | NewestFile | NewestComment | Uploader | Updater | Meta | Legacy

  datatype Column = Column(alias: Alias, name: string)

  type Row = map<string, Value>

  /** One combination of joined rows; an alias without a row is all NULL. */
  type Joined = map<Alias, Row>

  function Cell(row: Row, name: string): Value {
    if name in row then row[name] else Null
  }

  function Get(env: Joined, c: Column): Value {
    if c.alias in env then Cell(env[c.alias], c.name) else Null
  }

  // ---------------------------------------------------------------- predicates

  /** Conditions as the query text has them; every `?` is a placeholder, filled by position. */
  datatype Pred =
    | Never
    | Equals(c: Column)
    | Differs(c: Column)
    | IsTrue(c: Column, expected: bool)
    | Matches(c: Column)
    | NotMatches(c: Column)
    | OneOf(c: Column, n: nat)
    | IsNull(c: Column)
    | IsNotNull(c: Column)
    | InSet(c: Column)
    | NotInSet(c: Column)
    | Finds(c: Column, n: nat)
    | NotFinds(c: Column, n: nat)
    | HasItems(c: Column, some: bool)
    | Subscription(present: bool)
    | Both(left: Pred, right: Pred)
    | Either(left: Pred, right: Pred)

  function Holes(p: Pred): nat {
    match p
    case Never => 0
    case IsTrue(_, _) => 0
    case IsNull(_) => 0
    case IsNotNull(_) => 0
    case HasItems(_, _) => 0
    case OneOf(_, n) => n
    case Finds(_, n) => n
    case NotFinds(_, n) => n
    case Both(l, r) => Holes(l) + Holes(r)
    case Either(l, r) => Holes(l) + Holes(r)
    case _ => 1
  }

  /** The user ids subscribed to each submission. */
  type Subscriptions = set<(int, int)>

  function TextOf(v: Value): string {
    if v.Text? then v.s else ""
  }

  /** FIND_IN_SET(?, c): NULL when the list is NULL. */
  function FindInSet(arg: Value, v: Value): Truth {
    Known(v, arg.Num? && v.Ids? && arg.n in v.ids)
  }

  function Eval(p: Pred, args: seq<Value>, env: Joined, subs: Subscriptions): Truth
    requires |args| == Holes(p)
  {
    match p
    case Never => False
    case Equals(c) => if args[0] == Null then Unknown else Known(Get(env, c), Get(env, c) == args[0])
    case Differs(c) => if args[0] == Null then Unknown else Known(Get(env, c), Get(env, c) != args[0])
    case IsTrue(c, expected) => Known(Get(env, c), Get(env, c) == Num(if expected then 1 else 0))
    case Matches(c) =>
      if args[0] == Null then Unknown else Known(Get(env, c), Like(TextOf(Get(env, c)), TextOf(args[0])))
    case NotMatches(c) =>
      if args[0] == Null then Unknown else Known(Get(env, c), !Like(TextOf(Get(env, c)), TextOf(args[0])))
    case OneOf(c, _) =>
      if Null in args && Get(env, c) !in args then Unknown else Known(Get(env, c), Get(env, c) in args)
    case IsNull(c) => Bool(Get(env, c) == Null)
    case IsNotNull(c) => Bool(Get(env, c) != Null)
    case InSet(c) => FindInSet(args[0], Get(env, c))
    case NotInSet(c) => Bool(FindInSet(args[0], Get(env, c)) != True)
    case Finds(c, _) => if Null in args then Unknown else Known(Get(env, c), FoundIn(TextOf(Get(env, c)), args))
    case NotFinds(c, _) => if Null in args then Unknown else Known(Get(env, c), !FoundIn(TextOf(Get(env, c)), args))
    case HasItems(c, some) => Bool((Get(env, c).List? && Get(env, c).length > 0) == some)
    case Subscription(present) =>
      var id := Get(env, Column(Submission, "id"));
      Bool((id.Num? && args[0].Num? && (id.n, args[0].n) in subs) == present)
    case Both(l, r) => And(Eval(l, args[..Holes(l)], env, subs), Eval(r, args[Holes(l)..], env, subs))
    case Either(l, r) => Or(Eval(l, args[..Holes(l)], env, subs), Eval(r, args[Holes(l)..], env, subs))
  }

  /** REGEXP of alternatives without special characters: one of them occurs somewhere in the text. */
  predicate FoundIn(text: string, args: seq<Value>) {
    exists a | a in args :: Contains(text, TextOf(a))
  }

  // ---------------------------------------------------------------- WHERE

  function AllHoles(preds: seq<Pred>): nat {
    if preds == [] then 0 else AllHoles(preds[..|preds| - 1]) + Holes(preds[|preds| - 1])
  }

  /** `p1 AND p2 AND …` with the arguments taken from left to right. */
  function Where(preds: seq<Pred>, args: seq<Value>, env: Joined, subs: Subscriptions): Truth
    requires |args| == AllHoles(preds)
  {
    if preds == [] then True
    else
      var n := |preds| - 1;
      var k := AllHoles(preds[..n]);
      And(Where(preds[..n], args[..k], env, subs), Eval(preds[n], args[k..], env, subs))
  }

  lemma WhereWithOneMore(preds: seq<Pred>, args: seq<Value>, p: Pred, extra: seq<Value>, env: Joined,
                         subs: Subscriptions)
    requires |args| == AllHoles(preds) && |extra| == Holes(p)
    ensures AllHoles(preds + [p]) == |args + extra|
    ensures Where(preds + [p], args + extra, env, subs) == And(Where(preds, args, env, subs), Eval(p, extra, env, subs))
  {
    assert (preds + [p])[..|preds|] == preds;
    assert (args + extra)[..|args|] == args && (args + extra)[|args|..] == extra;
  }

  // ---------------------------------------------------------------- which aliases matter

  function Mentions(p: Pred): set<Alias> {
    match p
    case Never => {}
    case Subscription(_) => {Submission}
    case Both(l, r) => Mentions(l) + Mentions(r)
    case Either(l, r) => Mentions(l) + Mentions(r)
    case _ => {p.c.alias}
  }

  function AllMentions(preds: seq<Pred>): set<Alias> {
    if preds == [] then {} else AllMentions(preds[..|preds| - 1]) + Mentions(preds[|preds| - 1])
  }

  ghost predicate Agree(env: Joined, env': Joined, aliases: set<Alias>) {
    forall a | a in aliases :: (a in env <==> a in env') && (a in env && a in env' ==> env[a] == env'[a])
  }

  lemma {:induction false} EvalDependsOnMentions(p: Pred, args: seq<Value>, env: Joined, env': Joined,
                                                 subs: Subscriptions)
    requires |args| == Holes(p) && Agree(env, env', Mentions(p))
    ensures Eval(p, args, env, subs) == Eval(p, args, env', subs)
  {
    match p
    case Both(l, r) =>
      EvalDependsOnMentions(l, args[..Holes(l)], env, env', subs);
      EvalDependsOnMentions(r, args[Holes(l)..], env, env', subs);
    case Either(l, r) =>
      EvalDependsOnMentions(l, args[..Holes(l)], env, env', subs);
      EvalDependsOnMentions(r, args[Holes(l)..], env, env', subs);
    case Never => {}
    case Subscription(_) =>
      assert Submission in Mentions(p);
    case _ =>
      assert p.c.alias in Mentions(p);
      assert Get(env, p.c) == Get(env', p.c);
  }

  lemma {:induction false} WhereDependsOnMentions(preds: seq<Pred>, args: seq<Value>, env: Joined, env': Joined,
                                                  subs: Subscriptions)
    requires |args| == AllHoles(preds) && Agree(env, env', AllMentions(preds))
    ensures Where(preds, args, env, subs) == Where(preds, args, env', subs)
  {
    if preds != [] {
      var n := |preds| - 1;
      var k := AllHoles(preds[..n]);
      WhereDependsOnMentions(preds[..n], args[..k], env, env', subs);
      EvalDependsOnMentions(preds[n], args[k..], env, env', subs);
    }
  }
}
