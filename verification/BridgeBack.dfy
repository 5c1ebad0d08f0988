/** Conditions turned back into expressions, and the literal text that stands in for what has no equivalent. */
module BridgeBack {
  import opened Text
  import opened Values
  import opened Tokens
  import opened Leaves
  import opened Search
  import opened Meaning
  import opened ExprMeaning
  import opened Literals
  import opened Bridge
  import C = Conditions
  import E = Exprs

  // ----- Literal SQL of a condition -----

  /** LIKE patterns are put between quotes as they are. */
  function CondLiteral(c: C.Condition): string
    decreases c, 1
  {
    match c
    case Compare(op, col, v) => col + CmpText(op) + ToSqlLiteral(v)
    case Match(op, col, p) => col + LikeText(op) + ("'" + p + "'")
    case NullTest(n, col) => col + if n then " IS NULL" else " IS NOT NULL"
    case InList(neg, col, vs) =>
      if vs == [] then if neg then "1=1" else "1=0"
      else col + (if neg then " NOT IN (" else " IN (") + LiteralList(vs) + ")"
    case EqAny(col, vs) => if vs == [] then "1=0" else col + " = ANY(ARRAY[" + LiteralList(vs) + "])"
    case Between(neg, col, lo, hi) =>
      col + (if neg then " NOT BETWEEN " else " BETWEEN ") + ToSqlLiteral(lo) + " AND " + ToSqlLiteral(hi)
    case Raw(s) => s
    case Group(items) => "(" + ItemsLiteral(items) + ")"
    case JsonGet(col, key, v) => col + ("->>'" + Doubled(key, '\'') + "' = ") + ToSqlLiteral(v)
    case Subquery(positive, table, fk, inner) =>
      C.SubqueryOpen(positive) + table + " WHERE " + fk + (if inner == [] then "" else " AND " + ItemsLiteral(inner)) + ")"
    case FullTextMatch(col, q, config) =>
      col + (" @@ to_tsquery(" + C.ConfigText(config)) + ToSqlLiteral(Txt(q)) + ")"
    case FullTextRank(col, q, config, alias) =>
      "ts_rank(to_tsvector(" + (col + ("), to_tsquery(" + C.ConfigText(config)) + ToSqlLiteral(Txt(q))) + ")) AS " + alias
  }

  function ItemsLiteral(items: seq<C.Item>): string
    decreases items, 1
  {
    if items == [] then ""
    else
      assert items[0].cond < items[0];
      CondLiteral(items[0].cond) + TailLiteral(items[1..])
  }

  function TailLiteral(items: seq<C.Item>): string
    decreases items, 0
  {
    if items == [] then ""
    else
      assert items[0].cond < items[0];
      Spell(JoinTok(items[0].op)) + CondLiteral(items[0].cond) + TailLiteral(items[1..])
  }

  /** The quote characters in the LIKE patterns of a condition. */
  function PatternQuotes(c: C.Condition): nat
    decreases c, 1
  {
    match c
    case Match(_, _, p) => Count(p, '\'')
    case Group(items) => ItemsQuotes(items)
    case Subquery(_, _, _, inner) => ItemsQuotes(inner)
    case _ => 0
  }

  function ItemsQuotes(items: seq<C.Item>): nat
    decreases items, 0
  {
    if items == [] then 0
    else
      assert items[0].cond < items[0];
      PatternQuotes(items[0].cond) + ItemsQuotes(items[1..])
  }

  /** `b` is `a`, or is shorter by `q` characters. */
  predicate ShortBy(a: string, b: string, q: nat) {
    |a| == |b| + q && (q == 0 ==> a == b)
  }

  lemma {:induction false} ShortByCat(a: string, b: string, q: nat, a': string, b': string, q': nat)
    requires ShortBy(a, b, q) && ShortBy(a', b', q')
    ensures ShortBy(a + a', b + b', q + q')
  {
  }

  lemma {:induction false} DoubledShort(s: string)
    ensures ShortBy(Doubled(s, '\''), s, Count(s, '\''))
  {
    if s != "" {
      DoubledShort(s[1..]);
      CountIs(s, '\'');
      ShortByCat(if s[0] == '\'' then ['\'', '\''] else [s[0]], [s[0]], if s[0] == '\'' then 1 else 0,
                 Doubled(s[1..], '\''), s[1..], Count(s[1..], '\''));
      assert [s[0]] + s[1..] == s;
    } else {
      assert Count("", '\'') == 0;
    }
  }

  lemma {:induction false} InlineThree(a: string, b: string, slot: Tok)
    requires slot.Ph?
    ensures Inline([Frag(a)] + [Frag(b)] + [slot]) == a + b + ToSqlLiteral(slot.v)
  {
    hide Inline;
    InlineCat([Frag(a)] + [Frag(b)], [slot]);
    InlineCat([Frag(a)], [Frag(b)]);
    InlineOne(a);
    InlineOne(b);
    InlineSlot(slot);
  }

  lemma {:induction false} InlineList(vs: seq<SqlValue>, off: nat)
    ensures Inline(ListToks(Postgres, vs, off)) == LiteralList(vs)
  {
    hide ToSqlLiteral;
    if |vs| == 1 {
      InlineSlot(Ph(Number(Postgres, off), vs[0]));
    } else if |vs| > 1 {
      InlineList(vs[1..], off + 1);
      InlineMore(Ph(Number(Postgres, off), vs[0]), ListToks(Postgres, vs[1..], off + 1));
    }
  }

  lemma {:induction false} InlineMore(slot: Tok, more: seq<Tok>)
    requires slot.Ph?
    ensures Inline([slot] + [Frag(", ")] + more) == ToSqlLiteral(slot.v) + ", " + Inline(more)
  {
    hide Inline;
    InlineCat([slot] + [Frag(", ")], more);
    InlineCat([slot], [Frag(", ")]);
    InlineSlot(slot);
    InlineOne(", ");
  }

  lemma {:induction false} InlineIn(col: string, op: string, vs: seq<SqlValue>, off: nat, close: string)
    ensures Inline(InToks(Postgres, col, op, vs, off, close)) == col + op + LiteralList(vs) + close
  {
    hide Inline, ListToks;
    InlineList(vs, off);
    InlineCat([Frag(col)] + [Frag(op)] + ListToks(Postgres, vs, off), [Frag(close)]);
    InlineCat([Frag(col)] + [Frag(op)], ListToks(Postgres, vs, off));
    InlineCat([Frag(col)], [Frag(op)]);
    InlineOne(col);
    InlineOne(op);
    InlineOne(close);
  }

  lemma {:induction false} InlineBetween(neg: bool, col: string, lo: SqlValue, hi: SqlValue, off: nat)
    ensures Inline(BetweenToks(Postgres, neg, col, lo, hi, off))
         == col + (if neg then " NOT BETWEEN " else " BETWEEN ") + ToSqlLiteral(lo) + " AND " + ToSqlLiteral(hi)
  {
    hide Inline, ToSqlLiteral;
    var op, a, b := if neg then " NOT BETWEEN " else " BETWEEN ", Ph(Number(Postgres, off), lo), Ph(Number(Postgres, off + 1), hi);
    InlineThree(col, op, a);
    InlineCat([Frag(col)] + [Frag(op)] + [a], [Frag(" AND ")]);
    InlineCat([Frag(col)] + [Frag(op)] + [a] + [Frag(" AND ")], [b]);
    InlineOne(" AND ");
    InlineSlot(b);
  }

  lemma {:induction false} InlineWrap(a: string, body: seq<Tok>, b: string)
    ensures Inline([Frag(a)] + body + [Frag(b)]) == a + Inline(body) + b
  {
    hide Inline;
    InlineCat([Frag(a)] + body, [Frag(b)]);
    InlineCat([Frag(a)], body);
    InlineOne(a);
    InlineOne(b);
  }

  lemma {:induction false} InlineRank(col: string, op: string, q: string, off: nat, alias: string)
    ensures Inline([Frag("ts_rank(to_tsvector(")] + BinaryToks(Postgres, col, op, Txt(q), off) + [Frag(")) AS ")] + [Frag(alias)])
         == "ts_rank(to_tsvector(" + (col + op + ToSqlLiteral(Txt(q))) + ")) AS " + alias
  {
    hide Inline, ToSqlLiteral;
    var body := BinaryToks(Postgres, col, op, Txt(q), off);
    InlineThree(col, op, Ph(Number(Postgres, off), Txt(q)));
    InlineWrap("ts_rank(to_tsvector(", body, ")) AS ");
    InlineCat([Frag("ts_rank(to_tsvector(")] + body + [Frag(")) AS ")], [Frag(alias)]);
    InlineOne(alias);
  }

  lemma {:induction false} LeafLiteral(c: C.Condition, off: nat)
    requires !c.Group? && !c.Subquery? && !c.Match?
    ensures Inline(C.CondToks(Postgres, c, off)) == CondLiteral(c)
  {
    hide Inline, ToSqlLiteral, LiteralList;
    match c
    case Compare(op, col, v) => InlineThree(col, CmpText(op), Ph(Number(Postgres, off), v));
    case NullTest(n, col) =>
      InlineCat([Frag(col)], [Frag(if n then " IS NULL" else " IS NOT NULL")]);
      InlineOne(col);
      InlineOne(if n then " IS NULL" else " IS NOT NULL");
    case InList(neg, col, vs) =>
      InlineOne(if neg then "1=1" else "1=0");
      InlineIn(col, if neg then " NOT IN (" else " IN (", vs, off, ")");
    case EqAny(col, vs) =>
      InlineOne("1=0");
      InlineIn(col, " = ANY(ARRAY[", vs, off, "])");
    case Between(neg, col, lo, hi) => InlineBetween(neg, col, lo, hi, off);
    case Raw(s) => InlineOne(s);
    case JsonGet(col, key, v) => InlineThree(col, "->>'" + Doubled(key, '\'') + "' = ", Ph(Number(Postgres, off), v));
    case FullTextMatch(col, q, config) =>
      var slot := Ph(Number(Postgres, off), Txt(q));
      var op := " @@ to_tsquery(" + C.ConfigText(config);
      InlineThree(col, op, slot);
      InlineCat([Frag(col)] + [Frag(op)] + [slot], [Frag(")")]);
      InlineOne(")");
    case FullTextRank(col, q, config, alias) =>
      InlineRank(col, "), to_tsquery(" + C.ConfigText(config), q, off, alias);
  }

  lemma {:induction false} MatchLiteral(c: C.Condition, off: nat)
    requires c.Match?
    ensures ShortBy(Inline(C.CondToks(Postgres, c, off)), CondLiteral(c), PatternQuotes(c))
  {
    hide Inline;
    InlineThree(c.col, LikeText(c.like), Ph(Number(Postgres, off), Txt(c.pat)));
    DoubledShort(c.pat);
  }

  lemma {:induction false} SubqueryLiteral(c: C.Condition, off: nat, body: string)
    requires c.Subquery?
    requires body == Inline(C.ItemsToks(Postgres, c.inner, off))
    ensures Inline(C.CondToks(Postgres, c, off))
         == C.SubqueryOpen(c.positive) + c.table + " WHERE " + c.fkExpr + (if c.inner == [] then "" else " AND " + body) + ")"
  {
    hide Inline, C.ItemsToks, C.SubqueryOpen;
    var open := C.SubqueryOpen(c.positive);
    var extra := C.ExtraToks(Postgres, c.inner, off);
    var head := [Frag(open)] + [Frag(c.table)] + [Frag(" WHERE ")] + [Frag(c.fkExpr)];
    InlineCat(head + extra, [Frag(")")]);
    InlineCat(head, extra);
    InlineCat([Frag(open)] + [Frag(c.table)] + [Frag(" WHERE ")], [Frag(c.fkExpr)]);
    InlineCat([Frag(open)] + [Frag(c.table)], [Frag(" WHERE ")]);
    InlineCat([Frag(open)], [Frag(c.table)]);
    InlineOne(open);
    InlineOne(c.table);
    InlineOne(" WHERE ");
    InlineOne(c.fkExpr);
    InlineOne(")");
    ExtraLiteral(c.inner, off, body);
  }

  lemma {:induction false} ExtraLiteral(inner: seq<C.Item>, off: nat, body: string)
    requires body == Inline(C.ItemsToks(Postgres, inner, off))
    ensures Inline(C.ExtraToks(Postgres, inner, off)) == if inner == [] then "" else " AND " + body
  {
    hide C.ItemsToks;
    var items := C.ItemsToks(Postgres, inner, off);
    OpaqueText(items);
    InlineCat([Frag(" AND ")], Opaque(items));
    InlineOne(" AND ");
  }

  lemma {:induction false} LiteralShort(c: C.Condition, off: nat)
    ensures ShortBy(Inline(C.CondToks(Postgres, c, off)), CondLiteral(c), PatternQuotes(c))
    decreases c, 2
  {
    match c
    case Group(items) =>
      ItemsShort(items, off);
      GroupLiteral(items, off);
    case Subquery(positive, table, fk, inner) =>
      ItemsShort(inner, off);
      SubqueryShort(c, off);
    case Match(_, _, _) => MatchLiteral(c, off);
    case _ => LeafShort(c, off);
  }

  lemma {:induction false} LeafShort(c: C.Condition, off: nat)
    requires !c.Group? && !c.Subquery? && !c.Match?
    ensures ShortBy(Inline(C.CondToks(Postgres, c, off)), CondLiteral(c), PatternQuotes(c))
  {
    hide Inline, C.CondToks, CondLiteral;
    LeafLiteral(c, off);
  }

  lemma {:induction false} GroupLiteral(items: seq<C.Item>, off: nat)
    requires ShortBy(Inline(C.ItemsToks(Postgres, items, off)), ItemsLiteral(items), ItemsQuotes(items))
    ensures ShortBy(Inline(C.CondToks(Postgres, C.Group(items), off)), CondLiteral(C.Group(items)), PatternQuotes(C.Group(items)))
  {
    hide Inline, C.ItemsToks, ItemsLiteral, ItemsQuotes;
    var body := C.ItemsToks(Postgres, items, off);
    InlineCat([LP] + body, [RP]);
    InlineCat([LP], body);
    InlineKeyword(LP);
    InlineKeyword(RP);
    KeywordTexts();
    ShortByCat("(", "(", 0, Inline(body), ItemsLiteral(items), ItemsQuotes(items));
    ShortByCat("(" + Inline(body), "(" + ItemsLiteral(items), ItemsQuotes(items), ")", ")", 0);
  }

  lemma {:induction false} SubqueryShort(c: C.Condition, off: nat)
    requires c.Subquery?
    requires ShortBy(Inline(C.ItemsToks(Postgres, c.inner, off)), ItemsLiteral(c.inner), ItemsQuotes(c.inner))
    ensures ShortBy(Inline(C.CondToks(Postgres, c, off)), CondLiteral(c), PatternQuotes(c))
  {
    hide Inline, C.ItemsToks, ItemsLiteral, C.CondToks, C.SubqueryOpen;
    var body := Inline(C.ItemsToks(Postgres, c.inner, off));
    SubqueryLiteral(c, off, body);
    assert ItemsQuotes([]) == 0;
  }

  lemma {:induction false} ItemsShort(items: seq<C.Item>, off: nat)
    ensures ShortBy(Inline(C.ItemsToks(Postgres, items, off)), ItemsLiteral(items), ItemsQuotes(items))
    decreases items, 1
  {
    hide InlineTok, C.CondToks, CondLiteral, C.CondParams, C.TailToks, TailLiteral, PatternQuotes;
    if items != [] {
      assert items[0].cond < items[0];
      var off' := off + |C.CondParams(items[0].cond)|;
      LiteralShort(items[0].cond, off);
      TailShort(items[1..], off');
      InlineCat(C.CondToks(Postgres, items[0].cond, off), C.TailToks(Postgres, items[1..], off'));
    }
  }

  lemma {:induction false} TailShort(items: seq<C.Item>, off: nat)
    ensures ShortBy(Inline(C.TailToks(Postgres, items, off)), TailLiteral(items), ItemsQuotes(items))
    decreases items, 0
  {
    hide InlineTok, C.CondToks, CondLiteral, C.CondParams, Spell, PatternQuotes;
    if items != [] {
      assert items[0].cond < items[0];
      var off' := off + |C.CondParams(items[0].cond)|;
      LiteralShort(items[0].cond, off);
      TailShort(items[1..], off');
      var join := JoinTok(items[0].op);
      InlineCat([join] + C.CondToks(Postgres, items[0].cond, off), C.TailToks(Postgres, items[1..], off'));
      InlineCat([join], C.CondToks(Postgres, items[0].cond, off));
      InlineKeyword(join);
    }
  }

  /** The literal text is the rendering with its values inlined exactly when no LIKE pattern in it contains a quote. */
  lemma {:induction false} LiteralIff(c: C.Condition, off: nat)
    ensures CondLiteral(c) == Inline(C.CondToks(Postgres, c, off)) <==> PatternQuotes(c) == 0
  {
    hide Inline, C.CondToks, CondLiteral, PatternQuotes;
    LiteralShort(c, off);
  }

  // ----- Condition to expression -----

  datatype Pair = Pair(op: JoinOp, expr: E.Expr)

  function FoldPairs(acc: E.Expr, pairs: seq<Pair>): E.Expr
    decreases pairs
  {
    if pairs == [] then acc
    else FoldPairs(if pairs[0].op.JoinAnd? then E.And(acc, pairs[0].expr) else E.Or(acc, pairs[0].expr), pairs[1..])
  }

  function GroupToExpr(pairs: seq<Pair>): E.Expr {
    if pairs == [] then E.Raw("1=1") else FoldPairs(pairs[0].expr, pairs[1..])
  }

  function CondToExpr(c: C.Condition): E.Expr
    decreases c, 1
  {
    match c
    case Compare(op, col, v) => E.Compare(op, col, v)
    case Match(op, col, p) => E.Match(op, col, Txt(p))
    case InList(neg, col, vs) => E.InList(neg, col, vs)
    case NullTest(n, col) => E.NullTest(n, col)
    case Between(neg, col, lo, hi) => E.Between(neg, col, lo, hi)
    case Raw(s) => E.Raw(s)
    case Group(items) => GroupToExpr(Pairs(items))
    case _ => E.Raw(CondLiteral(c))
  }

  function Pairs(items: seq<C.Item>): (ps: seq<Pair>)
    ensures |ps| == |items|
    decreases items, 0
  {
    if items == [] then []
    else
      assert items[0].cond < items[0];
      [Pair(items[0].op, CondToExpr(items[0].cond))] + Pairs(items[1..])
  }

  // ----- Round trip -----

  lemma {:induction false} PairBack(op: JoinOp, l: C.Condition, r: C.Condition)
    ensures CondToExpr(C.Group([C.Item(JoinAnd, l), C.Item(op, r)]))
         == if op.JoinAnd? then E.And(CondToExpr(l), CondToExpr(r)) else E.Or(CondToExpr(l), CondToExpr(r))
  {
    var items := [C.Item(JoinAnd, l), C.Item(op, r)];
    assert items[1..] == [C.Item(op, r)] && items[1..][1..] == [];
    assert Pairs([C.Item(op, r)]) == [Pair(op, CondToExpr(r))];
    assert Pairs(items) == [Pair(JoinAnd, CondToExpr(l)), Pair(op, CondToExpr(r))];
    var pairs := Pairs(items);
    assert pairs[1..] == [Pair(op, CondToExpr(r))];
    FoldOne(CondToExpr(l), Pair(op, CondToExpr(r)));
  }

  lemma {:induction false} FoldOne(acc: E.Expr, p: Pair)
    ensures FoldPairs(acc, [p]) == if p.op.JoinAnd? then E.And(acc, p.expr) else E.Or(acc, p.expr)
  {
    assert [p][1..] == [];
  }

  /** What a leaf comes back as: itself, or the same text as a raw fragment. */
  function Raised(e: E.Expr): E.Expr {
    match e
    case Exists(positive, sub) => E.Raw(E.ExistsText(positive, sub))
    case InSubquery(neg, col, sub) => E.Raw(E.InSubqueryText(neg, col, sub))
    case ColEq(a, b) => E.Raw(a + " = " + b)
    case _ => e
  }

  lemma {:induction false} LeafComesBack(e: E.Expr)
    requires Plain(e) && TextPatterns(e) && !e.And? && !e.Or?
    ensures CondToExpr(ExprToCond(e)) == Raised(e)
  {
    hide Pairs, GroupToExpr, CondLiteral, ExprLiteral;
  }

  lemma {:induction false} RaisedRendersAlike(d: Dialect, e: E.Expr, off: nat)
    ensures E.ExprToks(d, Raised(e), off) == E.ExprToks(d, e, off)
    ensures E.ExprParams(Raised(e)) == E.ExprParams(e)
  {
    if Raised(e) != e {
      hide BinaryToks, InToks, ListToks;
    }
  }

  /** An expression turned into a condition and back renders the same. */
  lemma {:induction false} RoundTrip(d: Dialect, e: E.Expr, off: nat)
    requires Plain(e) && TextPatterns(e)
    ensures E.ExprToks(d, CondToExpr(ExprToCond(e)), off) == E.ExprToks(d, e, off)
    ensures E.ExprParams(CondToExpr(ExprToCond(e))) == E.ExprParams(e)
  {
    hide E.ExprToks, E.ExprParams, ExprToCond, CondToExpr, E.Bracket;
    if e.And? || e.Or? {
      var op, off' := if e.And? then JoinAnd else JoinOr, off + |E.ExprParams(e.l)|;
      RoundTrip(d, e.l, off);
      RoundTrip(d, e.r, off');
      PairIs(d, e, off);
      PairBack(op, ExprToCond(e.l), ExprToCond(e.r));
      PairIs(d, CondToExpr(ExprToCond(e)), off);
    } else {
      LeafComesBack(e);
      RaisedRendersAlike(d, e, off);
    }
  }

  // ----- Meaning -----

  /** Groups are non-empty with their ANDs first, IN lists are non-empty, and literal fallbacks hold no quoted pattern. */
  ghost predicate Kept(c: C.Condition)
    decreases c, 1
  {
    match c
    case InList(_, _, vs) => vs != []
    case Group(items) => items != [] && AndsFirst(ItemOps(items)[1..]) && KeptItems(items)
    case Subquery(_, _, _, _) => PatternQuotes(c) == 0
    case _ => true
  }

  /** The row decides atomic predicates by their text alone. */
  ghost predicate Textual(row: Row) {
    forall a: seq<Tok>, b: seq<Tok> :: Inline(a) == Inline(b) ==> row(a) == row(b)
  }

  /** Every part has a counterpart of its own in the other language, so that none becomes raw text. */
  predicate Native(c: C.Condition)
    decreases c, 1
  {
    match c
    case EqAny(_, _) => false
    case JsonGet(_, _, _) => false
    case Subquery(_, _, _, _) => false
    case FullTextMatch(_, _, _) => false
    case FullTextRank(_, _, _, _) => false
    case Group(items) => NativeItems(items)
    case _ => true
  }

  predicate NativeItems(items: seq<C.Item>)
    decreases items, 0
  {
    items != [] ==>
      assert items[0].cond < items[0];
      Native(items[0].cond) && NativeItems(items[1..])
  }

  ghost predicate KeptItems(items: seq<C.Item>)
    decreases items, 0
  {
    items != [] ==>
      assert items[0].cond < items[0];
      Kept(items[0].cond) && KeptItems(items[1..])
  }

  function ItemOps(items: seq<C.Item>): seq<JoinOp> {
    seq(|items|, i requires 0 <= i < |items| => items[i].op)
  }

  /** The truth values of a list of expressions, joined as the list is. */
  function PairVals(pairs: seq<Pair>, row: Row): (js: seq<Joined>)
    ensures |js| == |pairs|
  {
    seq(|pairs|, i requires 0 <= i < |pairs| => Joined(pairs[i].op, ExprEval(pairs[i].expr, row)))
  }

  lemma {:induction false} EvalPair(l: E.Expr, r: E.Expr, row: Row)
    ensures ExprEval(E.And(l, r), row) == TAnd(ExprEval(l, row), ExprEval(r, row))
    ensures ExprEval(E.Or(l, r), row) == TOr(ExprEval(l, row), ExprEval(r, row))
  {
    hide Inline, E.ExprToks;
  }

  lemma {:induction false} FoldEval(acc: E.Expr, pairs: seq<Pair>, row: Row)
    ensures ExprEval(FoldPairs(acc, pairs), row) == LeftFold(ExprEval(acc, row), PairVals(pairs, row))
    decreases pairs
  {
    hide ExprEval;
    if pairs != [] {
      EvalPair(acc, pairs[0].expr, row);
      FoldEval(if pairs[0].op.JoinAnd? then E.And(acc, pairs[0].expr) else E.Or(acc, pairs[0].expr), pairs[1..], row);
      assert PairVals(pairs, row)[1..] == PairVals(pairs[1..], row);
    }
  }

  lemma {:induction false} LeafKept(c: C.Condition, row: Row)
    requires !c.Group? && Kept(c) && (Textual(row) || Native(c))
    ensures ExprEval(CondToExpr(c), row) == CondEval(c, row)
  {
    hide Inline, Erase, Textual;
    if c.EqAny? || c.JsonGet? || c.Subquery? || c.FullTextMatch? || c.FullTextRank? {
      FallbackKept(c, row);
    }
  }

  lemma {:induction false} FallbackKept(c: C.Condition, row: Row)
    requires c.EqAny? || c.JsonGet? || c.Subquery? || c.FullTextMatch? || c.FullTextRank?
    requires PatternQuotes(c) == 0 && Textual(row)
    ensures ExprEval(CondToExpr(c), row) == CondEval(c, row)
  {
    hide Inline, CondLiteral, C.CondToks, Erase;
    LiteralIff(c, 1);
    InlineOne(CondLiteral(c));
    EraseKeepsInline([Frag(CondLiteral(c))]);
    EraseKeepsInline(C.CondToks(Postgres, c, 1));
  }

  lemma {:induction false} PairsAt(items: seq<C.Item>, i: nat)
    requires i < |items|
    ensures Pairs(items)[i] == Pair(items[i].op, CondToExpr(items[i].cond))
  {
    if i > 0 {
      PairsAt(items[1..], i - 1);
    }
  }

  lemma {:induction false} ItemsKept(items: seq<C.Item>, row: Row)
    requires KeptItems(items) && (Textual(row) || NativeItems(items))
    ensures PairVals(Pairs(items), row) == ItemVals(items, row)
    decreases items, 0
  {
    hide CondToExpr, CondEval, ExprEval, Kept, Textual, Native;
    if items != [] {
      assert items[0].cond < items[0];
      CondKept(items[0].cond, row);
      ItemsKept(items[1..], row);
      assert PairVals(Pairs(items), row)[1..] == PairVals(Pairs(items)[1..], row);
    }
  }

  lemma {:induction false} GroupKept(items: seq<C.Item>, row: Row)
    requires items != [] && AndsFirst(ItemOps(items)[1..])
    requires PairVals(Pairs(items), row) == ItemVals(items, row)
    ensures ExprEval(GroupToExpr(Pairs(items)), row) == OrOfRuns(ItemVals(items, row))
  {
    hide CondToExpr, CondEval, ExprEval, FoldPairs, LeftFold, OrOfRuns, ItemVals, Pairs;
    var pairs := Pairs(items);
    var js := PairVals(pairs, row);
    FoldEval(pairs[0].expr, pairs[1..], row);
    assert js[1..] == PairVals(pairs[1..], row);
    assert Ops(js) == ItemOps(items);
    FoldAgrees(js);
  }

  /**
   * In three-valued logic, the expression means what the condition meant, on every row that decides by text; and on
   * every row at all, if no part of the condition becomes raw text.
   */
  lemma {:induction false} CondKept(c: C.Condition, row: Row)
    requires Kept(c) && (Textual(row) || Native(c))
    ensures ExprEval(CondToExpr(c), row) == CondEval(c, row)
    decreases c, 1
  {
    hide Textual;
    if c.Group? {
      ItemsKept(c.items, row);
      GroupKept(c.items, row);
    } else {
      LeafKept(c, row);
    }
  }

  // ----- Exactly when -----

  /** A list of distinct atoms, named by consecutive numerals. */
  function Named(ops: seq<JoinOp>, k: nat): (items: seq<C.Item>)
    ensures |items| == |ops|
  {
    if ops == [] then [] else [C.Item(ops[0], C.Raw(Decimal(k)))] + Named(ops[1..], k + 1)
  }

  /** The row that gives the atom named `i` the i-th value. */
  function RowOf(vals: seq<Tri>): Row {
    (ts: seq<Tok>) =>
      if |ts| == 1 && ts[0].Frag? && AllDigits(ts[0].s) && ParseNat(ts[0].s) < |vals| then vals[ParseNat(ts[0].s)]
      else Unknown
  }

  lemma {:induction false} NamedShape(ops: seq<JoinOp>, k: nat)
    ensures ItemOps(Named(ops, k)) == ops && KeptItems(Named(ops, k)) && NativeItems(Named(ops, k))
  {
    if ops != [] {
      NamedShape(ops[1..], k + 1);
      assert Named(ops, k)[1..] == Named(ops[1..], k + 1);
      assert ItemOps(Named(ops, k))[1..] == ItemOps(Named(ops[1..], k + 1));
    }
  }

  lemma {:induction false} KeptSolid(c: C.Condition)
    requires Kept(c)
    ensures Solid(c)
    decreases c, 1
  {
    if c.Group? {
      KeptItemsSolid(c.items);
    }
  }

  lemma {:induction false} KeptItemsSolid(items: seq<C.Item>)
    requires KeptItems(items)
    ensures SolidItems(items)
    decreases items, 0
  {
    if items != [] {
      assert items[0].cond < items[0];
      KeptSolid(items[0].cond);
      KeptItemsSolid(items[1..]);
    }
  }

  /** The row gives the atom named `i` the i-th value. */
  ghost predicate Gives(row: Row, vals: seq<Tri>) {
    forall i: nat :: i < |vals| ==> row([Frag(Decimal(i))]) == vals[i]
  }

  lemma {:induction false} RowGives(vals: seq<Tri>)
    ensures Gives(RowOf(vals), vals)
  {
    forall i: nat | i < |vals|
      ensures RowOf(vals)([Frag(Decimal(i))]) == vals[i]
    {
      ParseDecimal(i);
    }
  }

  lemma {:induction false} AtomVal(k: nat, row: Row)
    ensures CondEval(C.Raw(Decimal(k)), row) == row([Frag(Decimal(k))])
  {
    hide Decimal;
    assert Erase([Frag(Decimal(k))]) == [Frag(Decimal(k))];
  }

  lemma {:induction false} NamedIs(ops: seq<JoinOp>, k: nat)
    requires ops != []
    ensures var items := Named(ops, k);
            items != [] && items[0] == C.Item(ops[0], C.Raw(Decimal(k))) && items[1..] == Named(ops[1..], k + 1)
  {
    hide Decimal;
  }

  lemma {:induction false} NamedValsIn(ops: seq<JoinOp>, k: nat, vals: seq<Tri>, row: Row)
    requires k + |ops| <= |vals| && Gives(row, vals)
    ensures ItemVals(Named(ops, k), row) == Zip(ops, vals[k..k + |ops|])
  {
    hide CondEval, Decimal, Inline, Named, Gives, Zip, ItemVals;
    if ops == [] {
      NothingNamed(k, row);
    } else {
      NamedIs(ops, k);
      ItemValsIs(Named(ops, k), row);
      NamedValsIn(ops[1..], k + 1, vals, row);
      AtomVal(k, row);
      GivesAt(row, vals, k);
      ZipIs(ops, vals[k..k + |ops|]);
      assert vals[k..k + |ops|][1..] == vals[k + 1..k + |ops|];
    }
  }

  lemma {:induction false} NothingNamed(k: nat, row: Row)
    ensures ItemVals(Named([], k), row) == [] && Zip([], []) == []
  {
  }

  lemma {:induction false} ItemValsIs(items: seq<C.Item>, row: Row)
    requires items != []
    ensures ItemVals(items, row) == [Joined(items[0].op, CondEval(items[0].cond, row))] + ItemVals(items[1..], row)
  {
    hide CondEval;
  }

  lemma {:induction false} GivesAt(row: Row, vals: seq<Tri>, k: nat)
    requires Gives(row, vals) && k < |vals|
    ensures row([Frag(Decimal(k))]) == vals[k]
  {
    hide Decimal;
  }

  lemma {:induction false} ZipIs(ops: seq<JoinOp>, vals: seq<Tri>)
    requires ops != [] && |ops| == |vals|
    ensures Zip(ops, vals) == [Joined(ops[0], vals[0])] + Zip(ops[1..], vals[1..])
  {
  }

  lemma {:induction false} NamedVals(ops: seq<JoinOp>, vals: seq<Tri>)
    requires |ops| == |vals|
    ensures ItemVals(Named(ops, 0), RowOf(vals)) == Zip(ops, vals)
  {
    RowGives(vals);
    NamedValsIn(ops, 0, vals, RowOf(vals));
    assert vals[0..|ops|] == vals;
  }

  lemma {:induction false} NamedFold(ops: seq<JoinOp>, vals: seq<Tri>)
    requires ops != [] && |vals| == |ops|
    ensures var items := Named(ops, 0);
            && ExprEval(CondToExpr(C.Group(items)), RowOf(vals)) == LeftFold(vals[0], Zip(ops, vals)[1..])
            && CondEval(C.Group(items), RowOf(vals)) == OrOfRuns(Zip(ops, vals))
  {
    hide *;
    var items, row := Named(ops, 0), RowOf(vals);
    NamedVals(ops, vals);
    NamedShape(ops, 0);
    ItemsKept(items, row);
    FoldedGroup(items, row);
    ZipHead(ops, vals);
  }

  lemma {:induction false} ZipHead(ops: seq<JoinOp>, vals: seq<Tri>)
    requires ops != [] && |vals| == |ops|
    ensures Zip(ops, vals) != [] && Zip(ops, vals)[0].val == vals[0]
  {
  }

  lemma {:induction false} FoldedGroup(items: seq<C.Item>, row: Row)
    requires items != []
    ensures var js := PairVals(Pairs(items), row);
            && ExprEval(CondToExpr(C.Group(items)), row) == LeftFold(js[0].val, js[1..])
            && CondEval(C.Group(items), row) == OrOfRuns(ItemVals(items, row))
  {
    hide CondToExpr, ExprEval, FoldPairs, LeftFold, OrOfRuns, Inline, Pairs, ItemVals;
    var pairs := Pairs(items);
    FoldEval(pairs[0].expr, pairs[1..], row);
    assert PairVals(pairs, row)[1..] == PairVals(pairs[1..], row);
    GroupIs(items);
  }

  lemma {:induction false} GroupIs(items: seq<C.Item>)
    requires items != []
    ensures CondToExpr(C.Group(items)) == FoldPairs(Pairs(items)[0].expr, Pairs(items)[1..])
  {
    hide FoldPairs, Pairs;
  }

  /** The left fold of a group of distinct atoms keeps its meaning in every row exactly when its ANDs come first. */
  lemma {:induction false} GroupKeptIff(ops: seq<JoinOp>)
    requires ops != []
    ensures (forall row: Row :: ExprEval(CondToExpr(C.Group(Named(ops, 0))), row) == CondEval(C.Group(Named(ops, 0)), row))
       <==> AndsFirst(ops[1..])
  {
    hide CondToExpr, ExprEval, CondEval, LeftFold, OrOfRuns, Named, KeptItems, ItemVals;
    var items := Named(ops, 0);
    if AndsFirst(ops[1..]) {
      NamedShape(ops, 0);
      forall row: Row
        ensures ExprEval(CondToExpr(C.Group(items)), row) == CondEval(C.Group(items), row)
      {
        CondKept(C.Group(items), row);
      }
    } else {
      FoldIsPrecedenceIff(ops);
      var vals: seq<Tri> :| |vals| == |ops| && LeftFold(vals[0], Zip(ops, vals)[1..]) != OrOfRuns(Zip(ops, vals));
      NamedFold(ops, vals);
    }
  }
}
