/** Atomic predicates as tests on column values, and the rendered ones read back from their operator words. */
module Columns {
  import opened Values
  import opened Tokens
  import opened Leaves
  import opened Search
  import C = Conditions
  import E = Exprs

  datatype Ordering = Less | Same | Greater

  /**
   * A row with its column values, and what the database makes of values. `compare` has no answer for NULL. `like` is
   * told whether to ignore case, `search` which configuration to use, if any. `finds` tells whether a subquery finds a
   * row, `within` whether it finds the value. What is not one of the forms below is decided by `raw`, if it is a single
   * fragment, or by `other`.
   */
  datatype Scene = Scene(
    value: string -> SqlValue,
    compare: (SqlValue, SqlValue) -> Option<Ordering>,
    like: (bool, SqlValue, SqlValue) -> Tri,
    member: (SqlValue, string) -> SqlValue,
    search: (SqlValue, Option<string>, SqlValue) -> Tri,
    finds: string -> Tri,
    within: (SqlValue, string) -> Tri,
    raw: string -> Tri,
    other: seq<Tok> -> Tri)

  function Of(b: bool): Tri {
    if b then True else False
  }

  function Flip(negated: bool, t: Tri): Tri {
    if negated then TNot(t) else t
  }

  // ----- What was built -----

  predicate Holds(op: CmpOp, o: Ordering) {
    match op
    case Eq => o.Same?
    case Ne => !o.Same?
    case Gt => o.Greater?
    case Gte => !o.Less?
    case Lt => o.Less?
    case Lte => !o.Greater?
  }

  function Compared(s: Scene, op: CmpOp, a: SqlValue, b: SqlValue): Tri {
    match s.compare(a, b)
    case None => Unknown
    case Some(o) => Of(Holds(op, o))
  }

  function Matched(s: Scene, op: LikeOp, a: SqlValue, b: SqlValue): Tri {
    match op
    case Like => s.like(false, a, b)
    case NotLike => TNot(s.like(false, a, b))
    case ILike => s.like(true, a, b)
  }

  /** True if some element equals the value, false if every element differs from it, else unknown. */
  function Among(s: Scene, x: SqlValue, vs: seq<SqlValue>): Tri {
    if exists i :: 0 <= i < |vs| && Compared(s, Eq, x, vs[i]).True? then True
    else if forall i :: 0 <= i < |vs| ==> Compared(s, Eq, x, vs[i]).False? then False
    else Unknown
  }

  function Ranged(s: Scene, x: SqlValue, lo: SqlValue, hi: SqlValue): Tri {
    TAnd(Compared(s, Gte, x, lo), Compared(s, Lte, x, hi))
  }

  /** The text of a subquery with its foreign-key test, its values inlined. */
  function SubqueryText(d: Dialect, table: string, fk: string, inner: seq<C.Item>): string {
    "SELECT 1 FROM " + table + " WHERE " + fk + if inner == [] then "" else " AND " + Inline(C.ItemsToks(d, inner, 1))
  }

  /** The test that a condition, other than a group, was built to make. */
  function CondTest(d: Dialect, c: C.Condition, s: Scene): Tri
    requires !c.Group?
  {
    match c
    case Compare(op, col, v) => Compared(s, op, s.value(col), v)
    case Match(op, col, p) => Matched(s, op, s.value(col), Txt(p))
    case NullTest(isNull, col) => Of(s.value(col).Null? == isNull)
    case InList(neg, col, vs) => Flip(neg, Among(s, s.value(col), vs))
    case EqAny(col, vs) => Among(s, s.value(col), vs)
    case Between(neg, col, lo, hi) => Flip(neg, Ranged(s, s.value(col), lo, hi))
    case Raw(sql) => ReadText(sql, s)
    case JsonGet(col, key, v) => Compared(s, Eq, s.member(s.value(col), key), v)
    case Subquery(positive, table, fk, inner) => Flip(!positive, s.finds(SubqueryText(d, table, fk, inner)))
    case FullTextMatch(col, q, config) => s.search(s.value(col), if d.Postgres? then config else None, Txt(q))
    case FullTextRank(_, _, _, _) => s.other(Erase(C.CondToks(d, c, 1)))
  }

  /** The operator of a comparison with an aggregate is text. */
  function RelOp(rel: string): Option<CmpOp> {
    if rel == "=" then Some(Eq)
    else if rel == "!=" then Some(Ne)
    else if rel == ">" then Some(Gt)
    else if rel == ">=" then Some(Gte)
    else if rel == "<" then Some(Lt)
    else if rel == "<=" then Some(Lte)
    else None
  }

  /** The test that an expression, other than AND, OR and NOT, was built to make. */
  function ExprTest(d: Dialect, e: E.Expr, s: Scene): Tri
    requires !e.And? && !e.Or? && !e.Not? && Plain(e)
  {
    match e
    case Compare(op, col, v) => Compared(s, op, s.value(col), v)
    case Match(op, col, v) => Matched(s, op, s.value(col), v)
    case InList(neg, col, vs) => Flip(neg, Among(s, s.value(col), vs))
    case EqAny(col, vs) => Among(s, s.value(col), vs)
    case NullTest(isNull, col) => Of(s.value(col).Null? == isNull)
    case Between(neg, col, lo, hi) => Flip(neg, Ranged(s, s.value(col), lo, hi))
    case ColEq(a, b) => Compared(s, Eq, s.value(a), s.value(b))
    case AggCmp(agg, rel, v) => Compared(s, RelOp(rel).value, s.value(agg), v)
    case Raw(sql) => ReadText(sql, s)
    case Exists(positive, sub) => Flip(!positive, s.finds(sub))
    case InSubquery(neg, col, sub) => Flip(neg, s.within(s.value(col), sub))
    case Case(_, _) => s.other(Erase(E.ExprToks(d, e, 1)))
  }

  /** Columns that stand in the same fragment as an operator are names, and operators given as text are comparisons. */
  predicate Plain(e: E.Expr) {
    match e
    case And(l, r) => Plain(l) && Plain(r)
    case Or(l, r) => Plain(l) && Plain(r)
    case Not(inner) => Plain(inner)
    case InList(_, _, vs) => vs != []
    case ColEq(a, b) => IsName(a) && IsName(b)
    case InSubquery(_, col, _) => IsName(col)
    case AggCmp(_, rel, _) => RelOp(rel).Some?
    case _ => true
  }

  // ----- Reading a single fragment -----

  predicate NameChar(c: char) {
    'a' <= c <= 'z' || 'A' <= c <= 'Z' || '0' <= c <= '9' || c == '_' || c == '.' || c == '"'
  }

  predicate IsName(s: string) {
    s != "" && forall i :: 0 <= i < |s| ==> NameChar(s[i])
  }

  function NameRun(s: string): (n: nat)
    ensures n <= |s| && (forall i :: 0 <= i < n ==> NameChar(s[i])) && (n < |s| ==> !NameChar(s[n]))
  {
    if s != "" && NameChar(s[0]) then 1 + NameRun(s[1..]) else 0
  }

  /** What stands between a word at the beginning and a closing parenthesis at the end. */
  function Inside(text: string, word: string): Option<string> {
    if word <= text && |text| > |word| && text[|text| - 1] == ')' then Some(text[|word|..|text| - 1]) else None
  }

  /** EXISTS and NOT EXISTS with a subquery. */
  function ReadExists(text: string, s: Scene): Option<Tri> {
    if Inside(text, "EXISTS (").Some? then Some(s.finds(Inside(text, "EXISTS (").value))
    else if Inside(text, "NOT EXISTS (").Some? then Some(TNot(s.finds(Inside(text, "NOT EXISTS (").value)))
    else None
  }

  /** A name compared with another by `=`, or looked for in a subquery by IN or NOT IN. */
  function ReadNamed(name: string, rest: string, s: Scene): Option<Tri> {
    var x := s.value(name);
    if " = " <= rest && IsName(rest[3..]) then Some(Read1("=", s, x, s.value(rest[3..])))
    else if Inside(rest, " IN (").Some? then Some(s.within(x, Inside(rest, " IN (").value))
    else if Inside(rest, " NOT IN (").Some? then Some(TNot(s.within(x, Inside(rest, " NOT IN (").value)))
    else None
  }

  function ReadText(text: string, s: Scene): Tri {
    if text == "1=1" then True
    else if text == "1=0" then False
    else if ReadExists(text, s).Some? then ReadExists(text, s).value
    else
      var n := NameRun(text);
      if n > 0 && ReadNamed(text[..n], text[n..], s).Some? then ReadNamed(text[..n], text[n..], s).value
      else s.raw(text)
  }

  // ----- Reading an atomic predicate -----

  /** The orderings on which an operator word holds. */
  function Orderings(word: string): set<Ordering> {
    if word == "=" then {Same}
    else if word == "!=" then {Less, Greater}
    else if word == ">" then {Greater}
    else if word == ">=" then {Same, Greater}
    else if word == "<" then {Less}
    else if word == "<=" then {Less, Same}
    else {}
  }

  function Read1(word: string, s: Scene, a: SqlValue, b: SqlValue): Tri {
    match s.compare(a, b)
    case None => Unknown
    case Some(o) => Of(o in Orderings(word))
  }

  /** A word between two blanks. */
  function Unspaced(text: string): Option<string> {
    if |text| > 2 && text[0] == ' ' && text[|text| - 1] == ' ' then Some(text[1..|text| - 1]) else None
  }

  /** Pairs of quotes stand for one. */
  function Halved(text: string): string {
    if text == "" then ""
    else if |text| > 1 && text[0] == '\'' && text[1] == '\'' then ['\''] + Halved(text[2..])
    else [text[0]] + Halved(text[1..])
  }

  /** The key between an opening and a closing piece of text. */
  function Key(text: string, open: string, close: string): Option<string> {
    if |text| >= |open| + |close| && open <= text && text[|text| - |close|..] == close
    then Some(Halved(text[|open|..|text| - |close|]))
    else None
  }

  /** A value, an operator and a bound value. */
  function ReadBinary(x: SqlValue, op: string, v: SqlValue, s: Scene): Option<Tri> {
    var word := Unspaced(op);
    if word.Some? && Orderings(word.value) != {} then Some(Read1(word.value, s, x, v))
    else if word == Some("LIKE") then Some(s.like(false, x, v))
    else if word == Some("NOT LIKE") then Some(TNot(s.like(false, x, v)))
    else if word == Some("ILIKE") then Some(s.like(true, x, v))
    else if word == Some("MATCH") then Some(s.search(x, None, v))
    else if Key(op, "->>'", "' = ").Some? then Some(Read1("=", s, s.member(x, Key(op, "->>'", "' = ").value), v))
    else None
  }

  /** Placeholders between commas, at least one. */
  function ReadPlaceholders(ts: seq<Tok>): Option<seq<SqlValue>> {
    if ts == [] || !ts[0].Ph? then None
    else if |ts| == 1 then Some([ts[0].v])
    else if ts[1] != Frag(", ") then None
    else
      match ReadPlaceholders(ts[2..])
      case None => None
      case Some(more) => Some([ts[0].v] + more)
  }

  /** `x = v` for the values in turn, joined by OR. */
  function ReadAny(x: SqlValue, vs: seq<SqlValue>, s: Scene): Tri {
    if vs == [] then False else TOr(Read1("=", s, x, vs[0]), ReadAny(x, vs[1..], s))
  }

  function ReadIn(x: SqlValue, ts: seq<Tok>, s: Scene): Option<Tri>
    requires |ts| >= 3
  {
    var vs := ReadPlaceholders(ts[1..|ts| - 1]);
    if vs.None? then None
    else if ts[0] == Frag(" IN (") && ts[|ts| - 1] == Frag(")") then Some(ReadAny(x, vs.value, s))
    else if ts[0] == Frag(" NOT IN (") && ts[|ts| - 1] == Frag(")") then Some(TNot(ReadAny(x, vs.value, s)))
    else if ts[0] == Frag(" = ANY(ARRAY[") && ts[|ts| - 1] == Frag("])") then Some(ReadAny(x, vs.value, s))
    else None
  }

  function ReadRange(x: SqlValue, ts: seq<Tok>, s: Scene): Option<Tri>
    requires |ts| == 4
  {
    if !ts[1].Ph? || ts[2] != Frag(" AND ") || !ts[3].Ph? then None
    else
      var both := TAnd(Read1(">=", s, x, ts[1].v), Read1("<=", s, x, ts[3].v));
      if ts[0] == Frag(" BETWEEN ") then Some(both)
      else if ts[0] == Frag(" NOT BETWEEN ") then Some(TNot(both))
      else None
  }

  function ReadNull(x: SqlValue, t: Tok): Option<Tri> {
    if t == Frag(" IS NULL") then Some(Of(x == Null))
    else if t == Frag(" IS NOT NULL") then Some(Of(x != Null))
    else None
  }

  /** A search for a bound query, with its configuration if one is named. */
  function ReadQuery(x: SqlValue, ts: seq<Tok>, s: Scene): Option<Tri>
    requires |ts| == 3
  {
    if !ts[0].Frag? || !(" @@ to_tsquery(" <= ts[0].s) || !ts[1].Ph? || ts[2] != Frag(")") then None
    else if ts[0].s == " @@ to_tsquery(" then Some(s.search(x, None, ts[1].v))
    else
      match Key(ts[0].s, " @@ to_tsquery('", "', ")
      case None => None
      case Some(config) => Some(s.search(x, Some(config), ts[1].v))
  }

  /** What follows a column: an operator and a value, a null test, a range or a list. */
  function ReadAfter(x: SqlValue, ts: seq<Tok>, s: Scene): Option<Tri> {
    if |ts| == 1 then ReadNull(x, ts[0])
    else if |ts| == 2 && ts[0].Frag? && ts[1].Ph? then ReadBinary(x, ts[0].s, ts[1].v, s)
    else if |ts| == 3 && ReadQuery(x, ts, s).Some? then ReadQuery(x, ts, s)
    else if |ts| == 4 && ReadRange(x, ts, s).Some? then ReadRange(x, ts, s)
    else if |ts| >= 3 then ReadIn(x, ts, s)
    else None
  }

  function ReadExtract(ts: seq<Tok>, s: Scene): Option<Tri> {
    if |ts| == 4 && ts[0] == Frag("json_extract(") && ts[1].Frag? && ts[2].Frag? && ts[3].Ph?
       && Key(ts[2].s, ", '$.", "') = ").Some?
    then Some(Read1("=", s, s.member(s.value(ts[1].s), Key(ts[2].s, ", '$.", "') = ").value), ts[3].v))
    else None
  }

  /** An atomic predicate, read by its form and its words. */
  function ReadAtomic(ts: seq<Tok>, s: Scene): Tri {
    if ts == [] || !ts[0].Frag? then s.other(ts)
    else if |ts| == 1 then ReadText(ts[0].s, s)
    else if ReadAfter(s.value(ts[0].s), ts[1..], s).Some? then ReadAfter(s.value(ts[0].s), ts[1..], s).value
    else if ReadExtract(ts, s).Some? then ReadExtract(ts, s).value
    else if |ts| > 4 && ts[2] == Frag(" WHERE ") && ReadExists(Inline(ts), s).Some? then ReadExists(Inline(ts), s).value
    else s.other(ts)
  }
}
