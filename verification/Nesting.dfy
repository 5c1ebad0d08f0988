/** How deep the parentheses of a rendering are nested, and which fragments start a new part of a statement. */
module Nesting {
  import opened Text
  import opened Values
  import opened Tokens
  import opened Leaves
  import C = Conditions

  // ----- Depth -----

  /** Parentheses opened in a text, less those closed. */
  function Opened(s: string): int {
    Count(s, '(') - Count(s, ')')
  }

  function Net(t: Tok): int {
    match t
    case Frag(s) => Opened(s)
    case LP => 1
    case RP => -1
    case _ => 0
  }

  /** The depth after the tokens when they start at depth `d`, or -1 if it falls below 0. */
  function Level(ts: seq<Tok>, d: nat): int {
    if ts == [] then d
    else if d + Net(ts[0]) < 0 then -1
    else Level(ts[1..], d + Net(ts[0]))
  }

  /** Every parenthesis is closed, and none is closed that was not opened. */
  predicate Balanced(ts: seq<Tok>) {
    Level(ts, 0) == 0
  }

  lemma {:induction false} LevelCat(a: seq<Tok>, b: seq<Tok>, d: nat)
    ensures Level(a + b, d) == if Level(a, d) < 0 then -1 else Level(b, Level(a, d))
  {
    if a == [] {
      assert a + b == b;
    } else {
      assert (a + b)[1..] == a[1..] + b;
      if d + Net(a[0]) >= 0 {
        LevelCat(a[1..], b, d + Net(a[0]));
      }
    }
  }

  lemma {:induction false} LevelShift(ts: seq<Tok>, d: nat, k: nat)
    requires Level(ts, d) >= 0
    ensures Level(ts, d + k) == Level(ts, d) + k
  {
    if ts != [] {
      LevelShift(ts[1..], d + Net(ts[0]), k);
    }
  }

  // ----- Where a statement goes on -----

  /** What a clause after the WHERE clause begins with. */
  predicate ClauseStart(s: string) {
    || " GROUP BY " <= s || " HAVING " <= s || " WINDOW " <= s || " ORDER BY " <= s || " LIMIT " <= s || " OFFSET " <= s
    || " FOR " <= s
  }

  predicate SetStart(s: string) {
    " UNION " <= s || " INTERSECT " <= s || " EXCEPT " <= s
  }

  predicate Starts(t: Tok) {
    t.Frag? && (ClauseStart(t.s) || SetStart(t.s))
  }

  /** Outside parentheses no token starts a new part, when they begin at depth `d`. */
  predicate GoesOn(ts: seq<Tok>, d: nat) {
    ts == []
    || ((d == 0 ==> !Starts(ts[0])) && d + Net(ts[0]) >= 0 && GoesOn(ts[1..], d + Net(ts[0])))
  }

  /** One part of a statement, with its parentheses closed. */
  predicate Calm(ts: seq<Tok>) {
    Balanced(ts) && GoesOn(ts, 0)
  }

  lemma {:induction false} GoesOnCat(a: seq<Tok>, b: seq<Tok>, d: nat)
    requires GoesOn(a, d) && Level(a, d) >= 0 && GoesOn(b, Level(a, d))
    ensures GoesOn(a + b, d)
  {
    if a == [] {
      assert a + b == b;
    } else {
      assert (a + b)[1..] == a[1..] + b;
      GoesOnCat(a[1..], b, d + Net(a[0]));
    }
  }

  lemma {:induction false} CalmCat(a: seq<Tok>, b: seq<Tok>)
    requires Calm(a) && Calm(b)
    ensures Calm(a + b)
  {
    LevelCat(a, b, 0);
    GoesOnCat(a, b, 0);
  }

  lemma {:induction false} DeepGoesOn(ts: seq<Tok>, d: nat)
    requires Level(ts, d) >= 0
    ensures GoesOn(ts, d + 1)
  {
    if ts != [] {
      DeepGoesOn(ts[1..], d + Net(ts[0]));
    }
  }

  /** Inside parentheses anything may stand. */
  lemma {:induction false} CalmWrap(open: Tok, mid: seq<Tok>, close: Tok)
    requires Balanced(mid) && Net(open) == 1 && Net(close) == -1 && !Starts(open)
    ensures Calm([open] + mid + [close])
  {
    hide Net, Starts;
    LevelShift(mid, 0, 1);
    DeepGoesOn(mid, 0);
    LevelOne(open, 0);
    LevelOne(close, 1);
    LevelCat([open], mid, 0);
    LevelCat([open] + mid, [close], 0);
    GoesOnCat([open], mid, 0);
    GoesOnCat([open] + mid, [close], 0);
  }

  lemma {:induction false} LevelOne(t: Tok, d: nat)
    requires d + Net(t) >= 0
    ensures Level([t], d) == d + Net(t)
    ensures (d == 0 ==> !Starts(t)) ==> GoesOn([t], d)
  {
    assert [t][1..] == [];
  }

  /** A token that neither opens nor closes anything, nor starts a new part. */
  predicate Flat(t: Tok) {
    Net(t) == 0 && !Starts(t)
  }

  lemma {:induction false} FlatCalm(ts: seq<Tok>)
    requires forall i :: 0 <= i < |ts| ==> Flat(ts[i])
    ensures Calm(ts)
  {
    if ts != [] {
      FlatCalm(ts[1..]);
    }
  }

  // ----- Text of the library -----

  lemma {:induction false} NoParens(s: string)
    requires '(' !in s && ')' !in s
    ensures Opened(s) == 0
  {
    CountNone(s, '(');
    CountNone(s, ')');
  }

  lemma {:induction false} OpenedCat(a: string, b: string)
    ensures Opened(a + b) == Opened(a) + Opened(b)
  {
    CountCat(a, b, '(');
    CountCat(a, b, ')');
  }

  lemma {:induction false} OneOpens(pre: string)
    requires '(' !in pre && ')' !in pre
    ensures Opened(pre + "(") == 1 && Opened(")" + pre) == -1
  {
    NoParens(pre);
    OpenedCat(pre, "(");
    OpenedCat(")", pre);
    CountOne('(');
    CountOne(')');
    CountNone("(", ')');
    CountNone(")", '(');
  }

  /** A fragment that does not begin with a blank starts nothing. */
  lemma {:induction false} NoBlankStarts(s: string)
    requires s == "" || s[0] != ' '
    ensures !Starts(Frag(s))
  {
  }

  lemma {:induction false} ListFlat(d: Dialect, vs: seq<SqlValue>, off: nat)
    ensures forall i :: 0 <= i < |ListToks(d, vs, off)| ==> Flat(ListToks(d, vs, off)[i])
  {
    CommaFlat();
    if |vs| > 1 {
      hide Flat;
      ListFlat(d, vs[1..], off + 1);
      SlotFlat(Ph(Number(d, off), vs[0]));
    } else if |vs| == 1 {
      SlotFlat(Ph(Number(d, off), vs[0]));
    }
  }

  lemma {:induction false} CommaFlat()
    ensures Flat(Frag(", "))
  {
    NoParens(", ");
  }

  lemma {:induction false} SlotFlat(t: Tok)
    requires t.Ph? || t.AND? || t.OR? || t.NOT?
    ensures Flat(t)
  {
  }

  lemma {:induction false} InCalm(d: Dialect, col: string, op: string, vs: seq<SqlValue>, off: nat, close: string)
    requires Flat(Frag(col)) && Net(Frag(op)) == -Net(Frag(close)) && 0 <= Net(Frag(op)) <= 1
    requires !Starts(Frag(op)) && !Starts(Frag(close))
    ensures Calm(InToks(d, col, op, vs, off, close))
  {
    hide Flat, Net, Starts, ListToks, Calm;
    var list := ListToks(d, vs, off);
    ListFlat(d, vs, off);
    FlatCalm(list);
    FlatCalm([Frag(col)]);
    ColumnFlat(col);
    if Net(Frag(op)) == 1 {
      CalmIs(list);
      CalmWrap(Frag(op), list, Frag(close));
    } else {
      FlatIs(Frag(op));
      FlatIs(Frag(close));
      FlatCalm([Frag(op)]);
      FlatCalm([Frag(close)]);
      CalmCat([Frag(op)], list);
      CalmCat([Frag(op)] + list, [Frag(close)]);
    }
    CalmCat([Frag(col)], [Frag(op)] + list + [Frag(close)]);
    assert [Frag(col)] + ([Frag(op)] + list + [Frag(close)]) == InToks(d, col, op, vs, off, close);
  }

  lemma {:induction false} ColumnFlat(col: string)
    requires Flat(Frag(col))
    ensures Net(Frag(col)) == 0
  {
  }

  lemma {:induction false} FlatIs(t: Tok)
    requires Net(t) == 0 && !Starts(t)
    ensures Flat(t)
  {
  }

  lemma {:induction false} CalmIs(ts: seq<Tok>)
    requires Calm(ts)
    ensures Balanced(ts)
  {
  }

  /** The second or the fourth character tells an operator word from the words that start a part. */
  lemma {:induction false} NoStart(s: string)
    requires |s| > 3
    requires s[1] !in "GHWOLFUIE" || (s[1] == 'L' && s[3] != 'M') || (s[1] == 'I' && s[3] != 'T') || (s[1] == 'W' && s[3] != 'N')
    ensures !Starts(Frag(s))
  {
    assert " GROUP BY "[1] == 'G' && " HAVING "[1] == 'H' && " ORDER BY "[1] == 'O';
    assert " WINDOW "[1] == 'W' && " WINDOW "[3] == 'N';
    assert " LIMIT "[1] == 'L' && " LIMIT "[3] == 'M' && " OFFSET "[1] == 'O' && " FOR "[1] == 'F';
    assert " UNION "[1] == 'U' && " INTERSECT "[1] == 'I' && " INTERSECT "[3] == 'T' && " EXCEPT "[1] == 'E';
  }

  lemma {:induction false} WordFlat(s: string)
    requires '(' !in s && ')' !in s && |s| > 3
    requires s[1] !in "GHWOLFUIE" || (s[1] == 'L' && s[3] != 'M') || (s[1] == 'I' && s[3] != 'T')
    ensures Flat(Frag(s))
  {
    NoParens(s);
    NoStart(s);
  }

  lemma {:induction false} CmpFlat(op: CmpOp)
    ensures Flat(Frag(CmpText(op)))
  {
    hide Flat;
    match op
    case Eq => ShortFlat(" = ");
    case Ne => WordFlat(" != ");
    case Gt => ShortFlat(" > ");
    case Gte => WordFlat(" >= ");
    case Lt => ShortFlat(" < ");
    case Lte => WordFlat(" <= ");
  }

  /** No word that starts a part is as short. */
  lemma {:induction false} ShortFlat(s: string)
    requires '(' !in s && ')' !in s && |s| <= 3
    ensures Flat(Frag(s))
  {
    NoParens(s);
  }

  lemma {:induction false} LikeFlat(op: LikeOp)
    ensures Flat(Frag(LikeText(op)))
  {
    hide Flat;
    match op
    case Like => WordFlat(" LIKE ");
    case NotLike => WordFlat(" NOT LIKE ");
    case ILike => WordFlat(" ILIKE ");
  }

  lemma {:induction false} WordsFlat()
    ensures Flat(Frag(" IS NULL")) && Flat(Frag(" IS NOT NULL")) && Flat(Frag(" AND ")) && Flat(Frag(" MATCH "))
    ensures Flat(Frag(" BETWEEN ")) && Flat(Frag(" NOT BETWEEN ")) && Flat(Frag("1=1")) && Flat(Frag("1=0"))
  {
    hide Flat;
    NullFlat();
    BetweenFlat();
    ConstantsFlat();
  }

  lemma {:induction false} NullFlat()
    ensures Flat(Frag(" IS NULL")) && Flat(Frag(" IS NOT NULL")) && Flat(Frag(" MATCH "))
  {
    hide Flat;
    WordFlat(" IS NULL");
    WordFlat(" IS NOT NULL");
    WordFlat(" MATCH ");
  }

  lemma {:induction false} BetweenFlat()
    ensures Flat(Frag(" BETWEEN ")) && Flat(Frag(" NOT BETWEEN ")) && Flat(Frag(" AND "))
  {
    hide Flat;
    WordFlat(" AND ");
    WordFlat(" BETWEEN ");
    WordFlat(" NOT BETWEEN ");
  }

  lemma {:induction false} ConstantsFlat()
    ensures Flat(Frag("1=1")) && Flat(Frag("1=0"))
  {
    hide Flat;
    ShortFlat("1=1");
    ShortFlat("1=0");
  }

  // ----- Conditions -----

  /** The caller's text closes its parentheses, and none of it starts a new part. */
  predicate CalmText(s: string) {
    Flat(Frag(s))
  }

  predicate CalmCond(c: C.Condition)
    decreases c, 1
  {
    match c
    case Compare(_, col, _) => CalmText(col)
    case Match(_, col, _) => CalmText(col)
    case NullTest(_, col) => CalmText(col)
    case InList(_, col, _) => CalmText(col)
    case EqAny(col, _) => CalmText(col)
    case Between(_, col, _, _) => CalmText(col)
    case Raw(sql) => CalmText(sql)
    case Group(items) => CalmItems(items)
    case JsonGet(col, key, _) => CalmText(col) && Opened(Doubled(key, '\'')) == 0
    case Subquery(_, table, fk, inner) => Opened(table) == 0 && Opened(fk) == 0 && CalmItems(inner)
    case FullTextMatch(col, _, config) => CalmText(col) && Opened(C.ConfigText(config)) == 0
    case FullTextRank(col, _, config, alias) => CalmText(col) && Opened(C.ConfigText(config)) == 0 && CalmText(alias)
  }

  predicate CalmItems(items: seq<C.Item>)
    decreases items, 0
  {
    items != [] ==>
      assert items[0].cond < items[0];
      CalmCond(items[0].cond) && CalmItems(items[1..])
  }

  lemma {:induction false} ThreeFlat(col: string, op: string, t: Tok)
    requires Flat(Frag(col)) && Flat(Frag(op)) && Flat(t)
    ensures Calm([Frag(col)] + [Frag(op)] + [t])
  {
    hide Flat, Calm;
    FlatCalm([Frag(col)] + [Frag(op)] + [t]);
  }

  lemma {:induction false} SimpleCalm(d: Dialect, c: C.Condition, off: nat)
    requires c.Compare? || c.Match? || c.NullTest? || c.Between? || c.Raw?
    requires CalmCond(c)
    ensures Calm(C.CondToks(d, c, off))
  {
    hide Flat, Calm, CmpText, LikeText;
    WordsFlat();
    match c
    case Compare(op, col, v) =>
      CalmTextIs(col);
      SlotFlat(Ph(Number(d, off), v));
      CmpFlat(op);
      ThreeFlat(col, CmpText(op), Ph(Number(d, off), v));
    case Match(op, col, p) =>
      CalmTextIs(col);
      SlotFlat(Ph(Number(d, off), Txt(p)));
      LikeFlat(op);
      ThreeFlat(col, LikeText(op), Ph(Number(d, off), Txt(p)));
    case NullTest(n, col) =>
      CalmTextIs(col);
      FlatCalm([Frag(col)] + [Frag(if n then " IS NULL" else " IS NOT NULL")]);
    case Between(neg, col, lo, hi) =>
      CalmTextIs(col);
      var a, b := Ph(Number(d, off), lo), Ph(Number(d, off + 1), hi);
      SlotFlat(a);
      SlotFlat(b);
      FlatCalm([Frag(col)] + [Frag(if neg then " NOT BETWEEN " else " BETWEEN ")] + [a] + [Frag(" AND ")] + [b]);
    case Raw(sql) =>
      CalmTextIs(sql);
      FlatCalm([Frag(sql)]);
  }

  lemma {:induction false} CalmTextIs(s: string)
    requires CalmText(s)
    ensures Flat(Frag(s))
  {
  }

  lemma {:induction false} InWords()
    ensures Net(Frag(" IN (")) == Net(Frag(" NOT IN (")) == 1 && Net(Frag(")")) == -1
    ensures !Starts(Frag(" IN (")) && !Starts(Frag(" NOT IN (")) && !Starts(Frag(")"))
  {
    hide Starts, Net;
    OpensOne(" IN ");
    OpensOne(" NOT IN ");
    assert " IN " + "(" == " IN (" && " NOT IN " + "(" == " NOT IN (";
    Closing();
  }

  lemma {:induction false} OpensOne(pre: string)
    requires '(' !in pre && ')' !in pre && |pre| > 3
    requires pre[1] !in "GHWOLFUIE" || (pre[1] == 'I' && pre[3] != 'T')
    ensures Net(Frag(pre + "(")) == 1 && !Starts(Frag(pre + "("))
  {
    OneOpens(pre);
    NoStart(pre + "(");
  }

  lemma {:induction false} Closing()
    ensures Net(Frag(")")) == -1 && !Starts(Frag(")"))
  {
    OneOpens("");
    assert ")" + "" == ")";
    NoBlankStarts(")");
  }

  lemma {:induction false} AnyWords()
    ensures Net(Frag(" = ANY(ARRAY[")) == 1 && Net(Frag("])")) == -1
    ensures !Starts(Frag(" = ANY(ARRAY[")) && !Starts(Frag("])"))
  {
    hide Opened;
    OneOpens(" = ANY");
    OpenedCat(" = ANY(", "ARRAY[");
    NoParens("ARRAY[");
    assert " = ANY" + "(" == " = ANY(" && " = ANY(" + "ARRAY[" == " = ANY(ARRAY[";
    OneOpens("");
    OpenedCat("]", ")");
    NoParens("]");
    assert "]" + ")" == "])" && ")" + "" == ")";
    NoStart(" = ANY(ARRAY[");
    NoBlankStarts("])");
  }

  lemma {:induction false} ListCalm(d: Dialect, c: C.Condition, off: nat)
    requires c.InList? || c.EqAny?
    requires CalmCond(c)
    ensures Calm(C.CondToks(d, c, off))
  {
    hide Flat, Calm, Net, Starts, InToks;
    WordsFlat();
    InWords();
    AnyWords();
    CalmTextIs(c.col);
    if c.vals == [] {
      FlatCalm([Frag("1=1")]);
      FlatCalm([Frag("1=0")]);
    } else if c.InList? {
      InCalm(d, c.col, if c.neg then " NOT IN (" else " IN (", c.vals, off, ")");
    } else if d.Postgres? {
      InCalm(d, c.col, " = ANY(ARRAY[", c.vals, off, "])");
    } else {
      InCalm(d, c.col, " IN (", c.vals, off, ")");
    }
  }

  lemma {:induction false} JsonCalm(d: Dialect, col: string, key: string, v: SqlValue, off: nat)
    requires CalmText(col) && Opened(Doubled(key, '\'')) == 0
    ensures Calm(C.CondToks(d, C.JsonGet(col, key, v), off))
  {
    hide Flat, Calm, Doubled, Opened, CalmText;
    if d.Postgres? {
      ArrowCalm(col, Doubled(key, '\''), Ph(Number(d, off), v));
    } else {
      ExtractCalm(col, Doubled(key, '\''), Ph(Number(d, off), v));
      var op := ", '$." + Doubled(key, '\'') + "') = ";
      assert [Frag("json_extract(")] + BinaryToks(d, col, op, v, off)
          == [Frag("json_extract(")] + [Frag(col)] + [Frag(op)] + [Ph(Number(d, off), v)];
    }
  }

  lemma {:induction false} ArrowCalm(col: string, mid: string, slot: Tok)
    requires CalmText(col) && Opened(mid) == 0 && slot.Ph?
    ensures Calm([Frag(col)] + [Frag("->>'" + mid + "' = ")] + [slot])
  {
    hide Flat, Calm, Opened;
    SlotFlat(slot);
    CalmTextIs(col);
    KeyOpened("->>'", mid, "' = ");
    NoParens("->>'");
    NoParens("' = ");
    FlatText("->>'" + mid + "' = ");
    ThreeFlat(col, "->>'" + mid + "' = ", slot);
  }

  lemma {:induction false} ExtractCalm(col: string, mid: string, slot: Tok)
    requires CalmText(col) && Opened(mid) == 0 && slot.Ph?
    ensures Calm([Frag("json_extract(")] + [Frag(col)] + [Frag(", '$." + mid + "') = ")] + [slot])
  {
    hide Flat, Calm, Opened;
    var open, op := "json_extract(", ", '$." + mid + "') = ";
    SlotFlat(slot);
    CalmTextIs(col);
    KeyOpened(", '$.", mid, "') = ");
    NoParens(", '$.");
    ExtractOpened();
    NoBlankStarts(open);
    FlatCalm([Frag(col)]);
    CalmIs([Frag(col)]);
    CalmWrap(Frag(open), [Frag(col)], Frag(op));
    FlatCalm([slot]);
    CalmCat([Frag(open)] + [Frag(col)] + [Frag(op)], [slot]);
  }

  lemma {:induction false} KeyOpened(a: string, mid: string, b: string)
    ensures Opened(a + mid + b) == Opened(a) + Opened(mid) + Opened(b)
  {
    OpenedCat(a + mid, b);
    OpenedCat(a, mid);
  }

  lemma {:induction false} ExtractOpened()
    ensures Opened("json_extract(") == 1 && Opened("') = ") == -1
  {
    hide Opened;
    OneOpens("json_extract");
    OneOpens(" = ");
    assert "json_extract" + "(" == "json_extract(" && ")" + " = " == ") = ";
    OpenedCat("'", ") = ");
    NoParens("'");
    assert "'" + ") = " == "') = ";
  }

  lemma {:induction false} FlatText(s: string)
    requires Opened(s) == 0 && (s == "" || s[0] != ' ')
    ensures Flat(Frag(s))
  {
    NoBlankStarts(s);
  }

  lemma {:induction false} MatchCalm(d: Dialect, col: string, q: string, config: Option<string>, off: nat)
    requires CalmText(col) && Opened(C.ConfigText(config)) == 0
    ensures Calm(C.CondToks(d, C.FullTextMatch(col, q, config), off))
  {
    hide Flat, Calm, Opened, C.ConfigText, Starts;
    var slot := Ph(Number(d, off), Txt(q));
    SlotFlat(slot);
    CalmTextIs(col);
    WordsFlat();
    if d.Postgres? {
      var op := " @@ to_tsquery(" + C.ConfigText(config);
      OpenedCat(" @@ to_tsquery(", C.ConfigText(config));
      OneOpens(" @@ to_tsquery");
      assert " @@ to_tsquery" + "(" == " @@ to_tsquery(";
      InWords();
      NoStart(op);
      FlatCalm([slot]);
      FlatCalm([Frag(col)]);
      CalmIs([slot]);
      CalmWrap(Frag(op), [slot], Frag(")"));
      CalmCat([Frag(col)], [Frag(op)] + [slot] + [Frag(")")]);
      assert BinaryToks(d, col, op, Txt(q), off) + [Frag(")")] == [Frag(col)] + ([Frag(op)] + [slot] + [Frag(")")]);
    } else {
      ThreeFlat(col, " MATCH ", slot);
    }
  }

  lemma {:induction false} RankCalm(d: Dialect, col: string, q: string, config: Option<string>, alias: string, off: nat)
    requires CalmText(col) && Opened(C.ConfigText(config)) == 0 && CalmText(alias)
    ensures Calm(C.CondToks(d, C.FullTextRank(col, q, config, alias), off))
  {
    hide Flat, Calm, Opened, C.ConfigText, Starts, Level, GoesOn, Balanced;
    var slot := Ph(Number(d, off), Txt(q));
    var open := Frag("ts_rank(to_tsvector(");
    var op := if d.Postgres? then "), to_tsquery(" + C.ConfigText(config) else "), ";
    var close := if d.Postgres? then ")) AS " else ") AS ";
    var ts := [open] + [Frag(col)] + [Frag(op)] + [slot] + [Frag(close)] + [Frag(alias)];
    RankWords(config);
    CalmTextIs(col);
    CalmTextIs(alias);
    SlotFlat(slot);
    NoBlankStarts("ts_rank(to_tsvector(");
    assert C.CondToks(d, C.FullTextRank(col, q, config, alias), off) == ts;
    SixCalm(open, Frag(col), Frag(op), slot, Frag(close), Frag(alias));
  }

  lemma {:induction false} RankWords(config: Option<string>)
    requires Opened(C.ConfigText(config)) == 0
    ensures Net(Frag("ts_rank(to_tsvector(")) == 2 && Net(Frag("), ")) == -1 && Net(Frag(") AS ")) == -1
    ensures Net(Frag("), to_tsquery(" + C.ConfigText(config))) == 0 && Net(Frag(")) AS ")) == -2
  {
    hide Opened;
    RankOpened();
    RankClosed();
    OpenedCat("), ", "to_tsquery(");
    assert "), " + "to_tsquery(" == "), to_tsquery(";
    OpenedCat("), to_tsquery(", C.ConfigText(config));
  }

  lemma {:induction false} RankOpened()
    ensures Opened("ts_rank(to_tsvector(") == 2 && Opened("to_tsquery(") == 1
  {
    hide Opened;
    OpensText("ts_rank", "ts_rank(");
    OpensText("to_tsvector", "to_tsvector(");
    OpensText("to_tsquery", "to_tsquery(");
    OpenedCat("ts_rank(", "to_tsvector(");
    assert "ts_rank(" + "to_tsvector(" == "ts_rank(to_tsvector(";
  }

  lemma {:induction false} OpensText(pre: string, text: string)
    requires '(' !in pre && ')' !in pre && text == pre + "("
    ensures Opened(text) == 1
  {
    OneOpens(pre);
  }

  lemma {:induction false} ClosesText(rest: string, text: string)
    requires '(' !in rest && ')' !in rest && text == ")" + rest
    ensures Opened(text) == -1
  {
    OneOpens(rest);
  }

  lemma {:induction false} RankClosed()
    ensures Opened("), ") == -1 && Opened(") AS ") == -1 && Opened(")) AS ") == -2
  {
    hide Opened;
    ClosesText(", ", "), ");
    ClosesText(" AS ", ") AS ");
    ClosesText("", ")");
    OpenedCat(")", ") AS ");
    assert ")" + ") AS " == ")) AS ";
  }

  lemma {:induction false} SixCalm(a: Tok, b: Tok, c: Tok, d: Tok, e: Tok, f: Tok)
    requires Net(a) == 2 && !Starts(a) && Flat(b) && -1 <= Net(c) <= 0 && Flat(d) && Flat(f)
    requires Net(e) == -2 - Net(c)
    ensures Calm([a] + [b] + [c] + [d] + [e] + [f])
  {
    hide Net, Starts, Level, GoesOn;
    var n := 2 + Net(c);
    var t5 := [f];
    var t4 := [e] + t5;
    var t3 := [d] + t4;
    var t2 := [c] + t3;
    var t1 := [b] + t2;
    FlatNet(b);
    FlatNet(d);
    FlatNet(f);
    LevelOne(f, 0);
    Cons(e, t5, n);
    Cons(d, t4, n);
    Cons(c, t3, 2);
    Cons(b, t2, 2);
    Cons(a, t1, 0);
    assert [a] + [b] + [c] + [d] + [e] + [f] == [a] + t1;
  }

  lemma {:induction false} FlatNet(t: Tok)
    requires Flat(t)
    ensures Net(t) == 0 && !Starts(t)
  {
  }

  lemma {:induction false} Cons(t: Tok, rest: seq<Tok>, d: nat)
    requires d + Net(t) >= 0 && (d == 0 ==> !Starts(t)) && GoesOn(rest, d + Net(t))
    ensures Level([t] + rest, d) == Level(rest, d + Net(t)) && GoesOn([t] + rest, d)
  {
    assert ([t] + rest)[1..] == rest;
  }

  lemma {:induction false} OpaqueLevel(ts: seq<Tok>, d: nat)
    ensures Level(Opaque(ts), d) == Level(ts, d)
  {
    if ts != [] {
      OpaqueNet(ts[0]);
      hide Net;
      assert Opaque(ts)[1..] == Opaque(ts[1..]);
      if d + Net(ts[0]) >= 0 {
        OpaqueLevel(ts[1..], d + Net(ts[0]));
      }
    }
  }

  lemma {:induction false} OpaqueNet(t: Tok)
    ensures Net(if t.Ph? then t else Frag(Spell(t))) == Net(t)
  {
    OneOpens("");
    assert "" + "(" == "(" && ")" + "" == ")";
    NoParens(" AND ");
    NoParens(" OR ");
    NoParens("NOT ");
  }

  lemma {:induction false} SubqueryCalm(d: Dialect, c: C.Condition, off: nat)
    requires c.Subquery? && Opened(c.table) == 0 && Opened(c.fkExpr) == 0 && Calm(C.ItemsToks(d, c.inner, off))
    ensures Calm(C.CondToks(d, c, off))
  {
    hide Opened, C.ItemsToks, Starts, Level, GoesOn, Calm, Opaque;
    var items := C.ItemsToks(d, c.inner, off);
    var open, extra := Frag(C.SubqueryOpen(c.positive)), C.ExtraToks(d, c.inner, off);
    var mid := [Frag(c.table)] + [Frag(" WHERE ")] + [Frag(c.fkExpr)] + extra;
    CalmIs(items);
    ExtraBalanced(d, c.inner, off);
    MidBalanced(c.table, c.fkExpr, extra);
    SubqueryOpened(c.positive);
    InWords();
    CalmWrap(open, mid, Frag(")"));
    assert C.CondToks(d, c, off) == [open] + mid + [Frag(")")];
  }

  lemma {:induction false} ExtraBalanced(d: Dialect, inner: seq<C.Item>, off: nat)
    requires Balanced(C.ItemsToks(d, inner, off))
    ensures Balanced(C.ExtraToks(d, inner, off))
  {
    hide C.ItemsToks, Net;
    if inner != [] {
      OpaqueLevel(C.ItemsToks(d, inner, off), 0);
      AndNet();
      LevelOne(Frag(" AND "), 0);
      LevelCat([Frag(" AND ")], Opaque(C.ItemsToks(d, inner, off)), 0);
    }
  }

  lemma {:induction false} AndNet()
    ensures Net(Frag(" AND ")) == 0 && Net(Frag(" WHERE ")) == 0
  {
    NoParens(" AND ");
    NoParens(" WHERE ");
  }

  lemma {:induction false} MidBalanced(table: string, fk: string, extra: seq<Tok>)
    requires Opened(table) == 0 && Opened(fk) == 0 && Balanced(extra)
    ensures Balanced([Frag(table)] + [Frag(" WHERE ")] + [Frag(fk)] + extra)
  {
    AndNet();
    hide Opened;
    LevelOne(Frag(table), 0);
    LevelOne(Frag(" WHERE "), 0);
    LevelOne(Frag(fk), 0);
    hide Level, Net;
    LevelCat([Frag(table)], [Frag(" WHERE ")], 0);
    LevelCat([Frag(table)] + [Frag(" WHERE ")], [Frag(fk)], 0);
    LevelCat([Frag(table)] + [Frag(" WHERE ")] + [Frag(fk)], extra, 0);
  }

  lemma {:induction false} SubqueryOpened(positive: bool)
    ensures Net(Frag(C.SubqueryOpen(positive))) == 1 && !Starts(Frag(C.SubqueryOpen(positive)))
  {
    hide Opened;
    NoParens("EXISTS");
    NoParens("NOT EXISTS");
    OpenedCat(if positive then "EXISTS" else "NOT EXISTS", " (SELECT 1 FROM ");
    SelectOpened();
    NoBlankStarts(C.SubqueryOpen(positive));
  }

  lemma {:induction false} SelectOpened()
    ensures Opened(" (SELECT 1 FROM ") == 1
  {
    hide Opened;
    OneOpens(" ");
    NoParens("SELECT 1 FROM ");
    OpenedCat(" (", "SELECT 1 FROM ");
    assert " " + "(" == " (" && " (" + "SELECT 1 FROM " == " (SELECT 1 FROM ";
  }

  /** A rendered condition is one part of a statement, if the caller's text is. */
  lemma {:induction false} CondCalm(d: Dialect, c: C.Condition, off: nat)
    requires CalmCond(c)
    ensures Calm(C.CondToks(d, c, off))
    decreases c, 1
  {
    hide Flat, Calm, Opened, CalmText;
    match c
    case Group(items) =>
      ItemsCalm(d, items, off);
      CalmIs(C.ItemsToks(d, items, off));
      CalmWrap(LP, C.ItemsToks(d, items, off), RP);
    case Subquery(_, _, _, inner) =>
      ItemsCalm(d, inner, off);
      SubqueryCalm(d, c, off);
    case InList(_, _, _) => ListCalm(d, c, off);
    case EqAny(_, _) => ListCalm(d, c, off);
    case JsonGet(col, key, v) => JsonCalm(d, col, key, v, off);
    case FullTextMatch(col, q, config) => MatchCalm(d, col, q, config, off);
    case FullTextRank(col, q, config, alias) => RankCalm(d, col, q, config, alias, off);
    case _ => SimpleCalm(d, c, off);
  }

  lemma {:induction false} JoinCalm(op: JoinOp)
    ensures Calm([JoinTok(op)])
  {
    SlotFlat(JoinTok(op));
    FlatCalm([JoinTok(op)]);
  }

  lemma {:induction false} ItemsCalm(d: Dialect, items: seq<C.Item>, off: nat)
    requires CalmItems(items)
    ensures Calm(C.ItemsToks(d, items, off))
    decreases items, 0
  {
    hide Calm, C.CondToks, C.CondParams, C.TailToks, CalmCond;
    if items == [] {
      FlatCalm([]);
    } else {
      var off' := off + |C.CondParams(items[0].cond)|;
      assert items[0].cond < items[0];
      CondCalm(d, items[0].cond, off);
      TailCalm(d, items[1..], off');
      CalmCat(C.CondToks(d, items[0].cond, off), C.TailToks(d, items[1..], off'));
    }
  }

  lemma {:induction false} TailCalm(d: Dialect, items: seq<C.Item>, off: nat)
    requires CalmItems(items)
    ensures Calm(C.TailToks(d, items, off))
    decreases items, 0
  {
    hide Calm, C.CondToks, C.CondParams, CalmCond;
    if items == [] {
      FlatCalm([]);
    } else {
      var off' := off + |C.CondParams(items[0].cond)|;
      assert items[0].cond < items[0];
      JoinCalm(items[0].op);
      CondCalm(d, items[0].cond, off);
      TailCalm(d, items[1..], off');
      CalmCat([JoinTok(items[0].op)], C.CondToks(d, items[0].cond, off));
      CalmCat([JoinTok(items[0].op)] + C.CondToks(d, items[0].cond, off), C.TailToks(d, items[1..], off'));
    }
  }
}
