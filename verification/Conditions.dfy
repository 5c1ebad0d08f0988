/** `Condition`: the WHERE language of the Active Record query builder. */
module Conditions {
  import opened Text
  import opened Values
  import opened Tokens
  import opened Leaves

  /** The comparison, pattern, null-test, list and range variants are each folded into one constructor. */
  datatype Condition =
    | Compare(op: CmpOp, col: string, val: SqlValue)
    | Match(like: LikeOp, col: string, pat: string)
    | NullTest(isNull: bool, col: string)
    | InList(neg: bool, col: string, vals: seq<SqlValue>)
    | EqAny(col: string, vals: seq<SqlValue>)
    | Between(neg: bool, col: string, lo: SqlValue, hi: SqlValue)
    | Raw(sql: string)
    | Group(items: seq<Item>)
    | JsonGet(col: string, key: string, val: SqlValue)
    | Subquery(positive: bool, table: string, fkExpr: string, inner: seq<Item>)
    | FullTextMatch(col: string, query: string, config: Option<string>)
    | FullTextRank(col: string, query: string, config: Option<string>, alias: string)

  datatype Item = Item(op: JoinOp, cond: Condition)

  function ConfigText(config: Option<string>): string {
    match config
    case None => ""
    case Some(c) => "'" + Doubled(c, '\'') + "', "
  }

  function SubqueryOpen(positive: bool): string {
    (if positive then "EXISTS" else "NOT EXISTS") + " (SELECT 1 FROM "
  }

  /** The bound values, left to right. */
  function CondParams(c: Condition): seq<SqlValue>
    decreases c, 1
  {
    match c
    case Compare(_, _, v) => [v]
    case Match(_, _, p) => [Txt(p)]
    case NullTest(_, _) => []
    case InList(_, _, vs) => vs
    case EqAny(_, vs) => vs
    case Between(_, _, lo, hi) => [lo, hi]
    case Raw(_) => []
    case Group(items) => ItemsParams(items)
    case JsonGet(_, _, v) => [v]
    case Subquery(_, _, _, inner) => ItemsParams(inner)
    case FullTextMatch(_, q, _) => [Txt(q)]
    case FullTextRank(_, q, _, _) => [Txt(q)]
  }

  function ItemsParams(items: seq<Item>): seq<SqlValue>
    decreases items, 0
  {
    if items == [] then []
    else
      assert items[0].cond < items[0];
      CondParams(items[0].cond) + ItemsParams(items[1..])
  }

  /** A condition rendered with its first placeholder numbered `off`. */
  function CondToks(d: Dialect, c: Condition, off: nat): seq<Tok>
    decreases c, 1
  {
    match c
    case Compare(op, col, v) => BinaryToks(d, col, CmpText(op), v, off)
    case Match(op, col, p) => BinaryToks(d, col, LikeText(op), Txt(p), off)
    case NullTest(n, col) => NullToks(n, col)
    case InList(neg, col, vs) =>
      if vs == [] then [Frag(if neg then "1=1" else "1=0")]
      else InToks(d, col, if neg then " NOT IN (" else " IN (", vs, off, ")")
    case EqAny(col, vs) =>
      if vs == [] then [Frag("1=0")]
      else if d.Postgres? then InToks(d, col, " = ANY(ARRAY[", vs, off, "])")
      else InToks(d, col, " IN (", vs, off, ")")
    case Between(neg, col, lo, hi) => BetweenToks(d, neg, col, lo, hi, off)
    case Raw(s) => [Frag(s)]
    case Group(items) => [LP] + ItemsToks(d, items, off) + [RP]
    case JsonGet(col, key, v) =>
      if d.Postgres? then BinaryToks(d, col, "->>'" + Doubled(key, '\'') + "' = ", v, off)
      else [Frag("json_extract(")] + BinaryToks(d, col, ", '$." + Doubled(key, '\'') + "') = ", v, off)
    case Subquery(positive, table, fk, inner) =>
      [Frag(SubqueryOpen(positive))] + [Frag(table)] + [Frag(" WHERE ")] + [Frag(fk)] + ExtraToks(d, inner, off)
      + [Frag(")")]
    case FullTextMatch(col, q, config) =>
      if d.Postgres? then BinaryToks(d, col, " @@ to_tsquery(" + ConfigText(config), Txt(q), off) + [Frag(")")]
      else BinaryToks(d, col, " MATCH ", Txt(q), off)
    case FullTextRank(col, q, config, alias) =>
      [Frag("ts_rank(to_tsvector(")]
      + BinaryToks(d, col, if d.Postgres? then "), to_tsquery(" + ConfigText(config) else "), ", Txt(q), off)
      + [Frag(if d.Postgres? then ")) AS " else ") AS ")] + [Frag(alias)]
  }

  /** The conditions of a subquery, after its foreign-key test; the first one is always joined by AND. */
  function ExtraToks(d: Dialect, inner: seq<Item>, off: nat): seq<Tok>
    decreases inner, 2
  {
    if inner == [] then [] else [Frag(" AND ")] + Opaque(ItemsToks(d, inner, off))
  }

  /** A flat list: the join operator of the first entry is not written. */
  function ItemsToks(d: Dialect, items: seq<Item>, off: nat): seq<Tok>
    decreases items, 1
  {
    if items == [] then []
    else
      assert items[0].cond < items[0];
      CondToks(d, items[0].cond, off) + TailToks(d, items[1..], off + |CondParams(items[0].cond)|)
  }

  function TailToks(d: Dialect, items: seq<Item>, off: nat): seq<Tok>
    decreases items, 0
  {
    if items == [] then []
    else
      assert items[0].cond < items[0];
      [JoinTok(items[0].op)] + CondToks(d, items[0].cond, off)
      + TailToks(d, items[1..], off + |CondParams(items[0].cond)|)
  }

  // ----- Unfolding -----

  lemma {:induction false} GroupIs(d: Dialect, items: seq<Item>, off: nat)
    ensures CondToks(d, Group(items), off) == [LP] + ItemsToks(d, items, off) + [RP]
    ensures CondParams(Group(items)) == ItemsParams(items)
  {
    hide ItemsToks, ItemsParams;
  }

  lemma {:induction false} ItemsIs(d: Dialect, items: seq<Item>, off: nat)
    requires items != []
    ensures ItemsToks(d, items, off)
         == CondToks(d, items[0].cond, off) + TailToks(d, items[1..], off + |CondParams(items[0].cond)|)
    ensures ItemsParams(items) == CondParams(items[0].cond) + ItemsParams(items[1..])
  {
    hide CondToks, CondParams, TailToks;
  }

  lemma {:induction false} TailIs(d: Dialect, items: seq<Item>, off: nat)
    requires items != []
    ensures TailToks(d, items, off)
         == [JoinTok(items[0].op)] + CondToks(d, items[0].cond, off)
            + TailToks(d, items[1..], off + |CondParams(items[0].cond)|)
  {
    hide CondToks, CondParams, JoinTok;
  }

  lemma {:induction false} NoItems(d: Dialect, off: nat)
    ensures ItemsToks(d, [], off) == [] && TailToks(d, [], off) == [] && ItemsParams([]) == []
  {
  }

  // ----- Numbering -----

  /** JSON and full-text tests. */
  predicate IsSearch(c: Condition) {
    c.JsonGet? || c.FullTextMatch? || c.FullTextRank?
  }

  /** At any offset, the placeholders number the bound values consecutively and in order. */
  lemma {:induction false} CondNumbering(d: Dialect, c: Condition, off: nat)
    ensures Slots(CondToks(d, c, off)) == Numbered(d, CondParams(c), off)
    decreases c, 1
  {
    hide Doubled, ConfigText, CmpText, LikeText, SubqueryOpen, ListToks, ItemsToks, ExtraToks, ItemsParams;
    match c
    case Compare(op, col, v) => BinarySlots(d, col, CmpText(op), v, off);
    case Match(op, col, p) => BinarySlots(d, col, LikeText(op), Txt(p), off);
    case NullTest(n, col) => SlotsNone(NullToks(n, col));
    case InList(neg, col, vs) => InSlots(d, col, if neg then " NOT IN (" else " IN (", vs, off, ")");
    case EqAny(col, vs) =>
      InSlots(d, col, " = ANY(ARRAY[", vs, off, "])");
      InSlots(d, col, " IN (", vs, off, ")");
    case Between(neg, col, lo, hi) => BetweenSlots(d, neg, col, lo, hi, off);
    case Raw(s) =>
    case Group(items) =>
      ItemsNumbering(d, items, off);
      SlotsWrap([LP], ItemsToks(d, items, off), [RP]);
    case Subquery(positive, table, fk, inner) =>
      ItemsNumbering(d, inner, off);
      ExtraSlots(d, inner, off);
      SlotsWrap([Frag(SubqueryOpen(positive))] + [Frag(table)] + [Frag(" WHERE ")] + [Frag(fk)],
                ExtraToks(d, inner, off), [Frag(")")]);
    case _ => SearchNumbering(d, c, off);
  }

  lemma {:induction false} SearchNumbering(d: Dialect, c: Condition, off: nat)
    requires IsSearch(c)
    ensures Slots(CondToks(d, c, off)) == Numbered(d, CondParams(c), off)
  {
    hide Doubled, ConfigText;
    match c
    case JsonGet(col, key, v) =>
      var op := if d.Postgres? then "->>'" + Doubled(key, '\'') + "' = " else ", '$." + Doubled(key, '\'') + "') = ";
      BinarySlots(d, col, op, v, off);
      SlotsWrap([Frag("json_extract(")], BinaryToks(d, col, op, v, off), []);
    case FullTextMatch(col, q, config) =>
      var op := if d.Postgres? then " @@ to_tsquery(" + ConfigText(config) else " MATCH ";
      BinarySlots(d, col, op, Txt(q), off);
      SlotsCat(BinaryToks(d, col, op, Txt(q), off), [Frag(")")]);
    case FullTextRank(col, q, config, alias) =>
      var op := if d.Postgres? then "), to_tsquery(" + ConfigText(config) else "), ";
      var close := [Frag(if d.Postgres? then ")) AS " else ") AS ")] + [Frag(alias)];
      BinarySlots(d, col, op, Txt(q), off);
      SlotsWrap([Frag("ts_rank(to_tsvector(")], BinaryToks(d, col, op, Txt(q), off), close);
      assert CondToks(d, c, off) == [Frag("ts_rank(to_tsvector(")] + BinaryToks(d, col, op, Txt(q), off) + close;
  }

  lemma {:induction false} ExtraSlots(d: Dialect, inner: seq<Item>, off: nat)
    ensures Slots(ExtraToks(d, inner, off)) == Slots(ItemsToks(d, inner, off))
  {
    var body := ItemsToks(d, inner, off);
    OpaqueText(body);
    SlotsWrap([Frag(" AND ")], Opaque(body), []);
    assert [Frag(" AND ")] + Opaque(body) + [] == [Frag(" AND ")] + Opaque(body);
  }

  lemma {:induction false} ItemsNumbering(d: Dialect, items: seq<Item>, off: nat)
    ensures Slots(ItemsToks(d, items, off)) == Numbered(d, ItemsParams(items), off)
    decreases items, 0
  {
    hide Slots, Numbered, CondToks, CondParams, TailToks;
    NothingNumbered(d, off);
    if items != [] {
      var ps := CondParams(items[0].cond);
      assert items[0].cond < items[0];
      CondNumbering(d, items[0].cond, off);
      TailNumbering(d, items[1..], off + |ps|);
      SlotsCat(CondToks(d, items[0].cond, off), TailToks(d, items[1..], off + |ps|));
      NumberedCat(d, ps, ItemsParams(items[1..]), off);
    }
  }

  lemma {:induction false} JoinSlots(op: JoinOp)
    ensures Slots([JoinTok(op)]) == []
  {
    assert [JoinTok(op)][1..] == [];
  }

  lemma {:induction false} TailNumbering(d: Dialect, items: seq<Item>, off: nat)
    ensures Slots(TailToks(d, items, off)) == Numbered(d, ItemsParams(items), off)
    decreases items, 0
  {
    hide Slots, Numbered, CondToks, CondParams;
    NothingNumbered(d, off);
    if items != [] {
      var ps := CondParams(items[0].cond);
      assert items[0].cond < items[0];
      JoinSlots(items[0].op);
      CondNumbering(d, items[0].cond, off);
      TailNumbering(d, items[1..], off + |ps|);
      var head := CondToks(d, items[0].cond, off);
      SlotsCat([JoinTok(items[0].op)], head);
      SlotsCat([JoinTok(items[0].op)] + head, TailToks(d, items[1..], off + |ps|));
      NumberedCat(d, ps, ItemsParams(items[1..]), off);
    }
  }

  // ----- The renderer as written: loops that push fragments and extend the parameter list -----

  /** What is still to be rendered of a flat list from entry `idx` on. */
  function RestToks(d: Dialect, items: seq<Item>, idx: nat, off: nat): seq<Tok>
    requires idx <= |items|
  {
    if idx == 0 then ItemsToks(d, items, off) else TailToks(d, items[idx..], off)
  }

  function Lead(items: seq<Item>, idx: nat): seq<Tok>
    requires idx < |items|
  {
    if idx > 0 then [JoinTok(items[idx].op)] else []
  }

  lemma {:induction false} NextItem(d: Dialect, items: seq<Item>, idx: nat, off: nat, done: seq<Tok>)
    requires idx < |items|
    ensures ItemsParams(items[idx..]) == CondParams(items[idx].cond) + ItemsParams(items[idx + 1..])
    ensures done + (Lead(items, idx) + CondToks(d, items[idx].cond, off))
            + RestToks(d, items, idx + 1, off + |CondParams(items[idx].cond)|)
         == done + RestToks(d, items, idx, off)
  {
    hide CondToks, CondParams;
    assert items[idx..][1..] == items[idx + 1..];
    var now := CondToks(d, items[idx].cond, off);
    var more := TailToks(d, items[idx + 1..], off + |CondParams(items[idx].cond)|);
    assert done + (Lead(items, idx) + now) + more == done + (Lead(items, idx) + now + more);
    if idx == 0 {
      assert items[0..] == items;
      assert [] + now == now;
    }
  }

  lemma {:induction false} WholeList(d: Dialect, items: seq<Item>, off: nat)
    ensures RestToks(d, items, 0, off) == ItemsToks(d, items, off) && items[0..] == items
  {
  }

  lemma {:induction false} NoMoreItems(d: Dialect, items: seq<Item>, off: nat)
    ensures RestToks(d, items, |items|, off) == [] && ItemsParams(items[|items|..]) == []
  {
  }

  method RenderItems(d: Dialect, items: seq<Item>, off: nat) returns (sql: seq<Tok>, params: seq<SqlValue>)
    ensures sql == ItemsToks(d, items, off) && params == ItemsParams(items)
    decreases items, 0
  {
    sql, params := [], [];
    hide CondToks, CondParams, TailToks, ItemsToks, ItemsParams, RestToks;
    WholeList(d, items, off);
    for idx := 0 to |items|
      invariant params + ItemsParams(items[idx..]) == ItemsParams(items)
      invariant sql + RestToks(d, items, idx, off + |params|) == ItemsToks(d, items, off)
    {
      assert items[idx].cond < items[idx];
      NextItem(d, items, idx, off + |params|, sql);
      var frag, ps := ToParamSql(d, items[idx].cond, off + |params|);
      sql := sql + (Lead(items, idx) + frag);
      params := params + ps;
    }
    NoMoreItems(d, items, off + |params|);
  }

  method ToParamSql(d: Dialect, c: Condition, off: nat) returns (sql: seq<Tok>, params: seq<SqlValue>)
    ensures sql == CondToks(d, c, off) && params == CondParams(c)
    decreases c, 1
  {
    match c
    case Group(items) =>
      sql, params := RenderItems(d, items, off);
      sql := [LP] + sql + [RP];
    case Subquery(positive, table, fk, inner) =>
      var parts, ps := RenderItems(d, inner, off);
      var extra := if inner == [] then [] else [Frag(" AND ")] + Opaque(parts);
      sql := [Frag(SubqueryOpen(positive))] + [Frag(table)] + [Frag(" WHERE ")] + [Frag(fk)] + extra + [Frag(")")];
      params := ps;
    case _ =>
      sql, params := CondToks(d, c, off), CondParams(c);
  }

  // ----- Cleanliness -----

  /** No text that the caller supplies for the condition contains a `$` followed by a digit. */
  ghost predicate QuietCond(c: Condition)
    decreases c, 1
  {
    match c
    case Compare(_, col, _) => Quiet(col)
    case Match(_, col, _) => Quiet(col)
    case NullTest(_, col) => Quiet(col)
    case InList(_, col, _) => Quiet(col)
    case EqAny(col, _) => Quiet(col)
    case Between(_, col, _, _) => Quiet(col)
    case Raw(s) => Quiet(s)
    case Group(items) => QuietItems(items)
    case JsonGet(col, key, _) => Quiet(col) && Quiet(key)
    case Subquery(_, table, fk, inner) => Quiet(table) && Quiet(fk) && QuietItems(inner)
    case FullTextMatch(col, _, config) => Quiet(col) && (config.Some? ==> Quiet(config.value))
    case FullTextRank(col, _, config, alias) => Quiet(col) && (config.Some? ==> Quiet(config.value)) && Quiet(alias)
  }

  ghost predicate QuietItems(items: seq<Item>)
    decreases items, 0
  {
    items != [] ==>
      assert items[0].cond < items[0];
      QuietCond(items[0].cond) && QuietItems(items[1..])
  }

  lemma {:induction false} DoubledQuiet(s: string)
    requires Quiet(s)
    ensures Quiet(Doubled(s, '\''))
    ensures s != "" && s[0] != '\'' ==> Doubled(s, '\'') != "" && Doubled(s, '\'')[0] == s[0]
    ensures s != "" && s[0] == '\'' ==> Doubled(s, '\'') != "" && Doubled(s, '\'')[0] == '\''
  {
    if s != "" {
      DoubledQuiet(s[1..]);
      var r := Doubled(s, '\'');
      if s[0] != '\'' {
        assert r == [s[0]] + Doubled(s[1..], '\'');
        assert |s| > 1 ==> s[1..][0] == s[1];
      } else {
        assert r == ['\'', '\''] + Doubled(s[1..], '\'');
      }
    }
  }

  lemma {:induction false} QuietCat(a: string, b: string)
    requires Quiet(a) && Quiet(b) && !(EndsWithDollar(a) && StartsWithDigit(b))
    ensures Quiet(a + b)
  {
  }

  /** A quoted word between two pieces of punctuation. */
  lemma {:induction false} QuotedSeparator(open: string, word: string, close: string)
    requires Separator(open) && Separator(close) && Quiet(word)
    ensures Separator(open + Doubled(word, '\'') + close)
  {
    DoubledQuiet(word);
    QuietCat(open, Doubled(word, '\''));
    QuietCat(open + Doubled(word, '\''), close);
  }

  lemma {:induction false} ConfigSeparator(open: string, config: Option<string>)
    requires Separator(open) && (config.Some? ==> Quiet(config.value))
    ensures Separator(open + ConfigText(config))
  {
    match config
    case None => assert open + "" == open;
    case Some(c) =>
      QuietCat(open, "'");
      QuotedSeparator(open + "'", c, "', ");
      assert open + ConfigText(config) == open + "'" + Doubled(c, '\'') + "', ";
  }

  lemma {:induction false} CondClean(d: Dialect, c: Condition, off: nat)
    requires QuietCond(c)
    ensures Clean(CondToks(d, c, off))
    decreases c, 1
  {
    match c
    case Group(items) =>
      ItemsClean(d, items, off);
      CleanCat([LP], ItemsToks(d, items, off));
      CleanCat([LP] + ItemsToks(d, items, off), [RP]);
    case Subquery(positive, table, fk, inner) => SubqueryClean(d, positive, table, fk, inner, off);
    case _ => LeafClean(d, c, off);
  }

  lemma {:induction false} LeafClean(d: Dialect, c: Condition, off: nat)
    requires !c.Group? && !c.Subquery? && QuietCond(c)
    ensures Clean(CondToks(d, c, off))
  {
    if c.InList? || c.EqAny? {
      if c.vals == [] {
        FragClean("1=0");
        FragClean("1=1");
      } else {
        ListLeafClean(d, c.col, c.vals, off);
      }
    } else if c.JsonGet? || c.FullTextMatch? || c.FullTextRank? {
      SearchClean(d, c, off);
    } else {
      SimpleClean(d, c, off);
    }
  }

  lemma {:induction false} FragClean(s: string)
    requires Quiet(s)
    ensures Clean([Frag(s)])
  {
  }

  lemma {:induction false} SimpleClean(d: Dialect, c: Condition, off: nat)
    requires c.Compare? || c.Match? || c.NullTest? || c.Between? || c.Raw?
    requires QuietCond(c)
    ensures Clean(CondToks(d, c, off))
  {
    match c
    case Compare(op, col, v) => BinaryClean(d, col, CmpText(op), v, off);
    case Match(op, col, p) => BinaryClean(d, col, LikeText(op), Txt(p), off);
    case Between(neg, col, lo, hi) => BetweenClean(d, neg, col, lo, hi, off);
    case NullTest(n, col) => CleanCat([Frag(col)], [Frag(if n then " IS NULL" else " IS NOT NULL")]);
    case Raw(s) => FragClean(s);
  }

  lemma {:induction false} SearchClean(d: Dialect, c: Condition, off: nat)
    requires c.JsonGet? || c.FullTextMatch? || c.FullTextRank?
    requires QuietCond(c)
    ensures Clean(CondToks(d, c, off))
  {
    match c
    case JsonGet(col, key, v) => JsonClean(d, col, key, v, off);
    case FullTextMatch(col, q, config) => MatchClean(d, col, Txt(q), config, off);
    case FullTextRank(col, q, config, alias) =>
      ConfigSeparator("), to_tsquery(", config);
      RankClean(d, col, if d.Postgres? then "), to_tsquery(" + ConfigText(config) else "), ", Txt(q), off,
                if d.Postgres? then ")) AS " else ") AS ", alias);
  }

  lemma {:induction false} ListLeafClean(d: Dialect, col: string, vs: seq<SqlValue>, off: nat)
    requires Quiet(col)
    ensures Clean(InToks(d, col, " NOT IN (", vs, off, ")"))
    ensures Clean(InToks(d, col, " IN (", vs, off, ")"))
    ensures Clean(InToks(d, col, " = ANY(ARRAY[", vs, off, "])"))
  {
    InClean(d, col, " NOT IN (", vs, off, ")");
    InClean(d, col, " IN (", vs, off, ")");
    InClean(d, col, " = ANY(ARRAY[", vs, off, "])");
  }

  lemma {:induction false} JsonClean(d: Dialect, col: string, key: string, v: SqlValue, off: nat)
    requires Quiet(col) && Quiet(key)
    ensures Clean(CondToks(d, JsonGet(col, key, v), off))
  {
    if d.Postgres? {
      QuotedSeparator("->>'", key, "' = ");
      BinaryClean(d, col, "->>'" + Doubled(key, '\'') + "' = ", v, off);
    } else {
      QuotedSeparator(", '$.", key, "') = ");
      BinaryClean(d, col, ", '$." + Doubled(key, '\'') + "') = ", v, off);
      CleanCat([Frag("json_extract(")], BinaryToks(d, col, ", '$." + Doubled(key, '\'') + "') = ", v, off));
    }
  }

  lemma {:induction false} MatchClean(d: Dialect, col: string, v: SqlValue, config: Option<string>, off: nat)
    requires Quiet(col) && (config.Some? ==> Quiet(config.value))
    ensures Clean(BinaryToks(d, col, " @@ to_tsquery(" + ConfigText(config), v, off) + [Frag(")")])
    ensures Clean(BinaryToks(d, col, " MATCH ", v, off))
  {
    ConfigSeparator(" @@ to_tsquery(", config);
    BinaryClean(d, col, " @@ to_tsquery(" + ConfigText(config), v, off);
    CleanCat(BinaryToks(d, col, " @@ to_tsquery(" + ConfigText(config), v, off), [Frag(")")]);
    BinaryClean(d, col, " MATCH ", v, off);
  }

  lemma {:induction false} RankClean(d: Dialect, col: string, op: string, v: SqlValue, off: nat, close: string, alias: string)
    requires Quiet(col) && Separator(op) && Separator(close) && Quiet(alias)
    ensures Clean([Frag("ts_rank(to_tsvector(")] + BinaryToks(d, col, op, v, off) + [Frag(close)] + [Frag(alias)])
  {
    var head := [Frag("ts_rank(to_tsvector(")];
    BinaryClean(d, col, op, v, off);
    CleanCat(head, BinaryToks(d, col, op, v, off));
    CleanCat(head + BinaryToks(d, col, op, v, off), [Frag(close)]);
    CleanCat(head + BinaryToks(d, col, op, v, off) + [Frag(close)], [Frag(alias)]);
  }

  lemma {:induction false} SubqueryClean(d: Dialect, positive: bool, table: string, fk: string, inner: seq<Item>, off: nat)
    requires Quiet(table) && Quiet(fk) && QuietItems(inner)
    ensures Clean(CondToks(d, Subquery(positive, table, fk, inner), off))
    decreases inner, 3
  {
    ItemsClean(d, inner, off);
    ExtraClean(d, inner, off);
    SubqueryWrapClean(positive, table, fk, ExtraToks(d, inner, off));
  }

  lemma {:induction false} ExtraClean(d: Dialect, inner: seq<Item>, off: nat)
    requires Clean(ItemsToks(d, inner, off))
    ensures Clean(ExtraToks(d, inner, off))
    ensures ExtraToks(d, inner, off) != [] ==> SafeStart(ExtraToks(d, inner, off)[0])
  {
    OpaqueClean(ItemsToks(d, inner, off));
    CleanCat([Frag(" AND ")], Opaque(ItemsToks(d, inner, off)));
  }

  lemma {:induction false} OpenClean(positive: bool)
    ensures Clean([Frag(SubqueryOpen(positive))]) && !EndsWithDollar(SubqueryOpen(positive))
    ensures Clean([Frag(" WHERE ")]) && Clean([Frag(")")])
  {
  }

  lemma {:induction false} SubqueryWrapClean(positive: bool, table: string, fk: string, extra: seq<Tok>)
    requires Quiet(table) && Quiet(fk) && Clean(extra) && (extra != [] ==> SafeStart(extra[0]))
    ensures Clean([Frag(SubqueryOpen(positive))] + [Frag(table)] + [Frag(" WHERE ")] + [Frag(fk)] + extra + [Frag(")")])
  {
    hide Quiet, SubqueryOpen, Clean;
    var open := [Frag(SubqueryOpen(positive))] + [Frag(table)];
    OpenClean(positive);
    FragClean(table);
    FragClean(fk);
    CleanCat([Frag(SubqueryOpen(positive))], [Frag(table)]);
    CleanCat(open, [Frag(" WHERE ")]);
    CleanCat(open + [Frag(" WHERE ")], [Frag(fk)]);
    var head := open + [Frag(" WHERE ")] + [Frag(fk)];
    CleanCat(head, extra);
    CleanCat(head + extra, [Frag(")")]);
  }

  lemma {:induction false} ItemsClean(d: Dialect, items: seq<Item>, off: nat)
    requires QuietItems(items)
    ensures Clean(ItemsToks(d, items, off))
    decreases items, 0
  {
    if items != [] {
      var off' := off + |CondParams(items[0].cond)|;
      assert items[0].cond < items[0];
      CondClean(d, items[0].cond, off);
      TailClean(d, items[1..], off');
      CleanCat(CondToks(d, items[0].cond, off), TailToks(d, items[1..], off'));
    }
  }

  lemma {:induction false} TailClean(d: Dialect, items: seq<Item>, off: nat)
    requires QuietItems(items)
    ensures Clean(TailToks(d, items, off))
    ensures items != [] ==> SafeStart(TailToks(d, items, off)[0])
    decreases items, 0
  {
    if items != [] {
      var off' := off + |CondParams(items[0].cond)|;
      var head := CondToks(d, items[0].cond, off);
      assert items[0].cond < items[0];
      CondClean(d, items[0].cond, off);
      TailClean(d, items[1..], off');
      CleanCat([JoinTok(items[0].op)], head);
      CleanCat([JoinTok(items[0].op)] + head, TailToks(d, items[1..], off'));
    }
  }

  // ----- The two dialects -----

  /** Conditions that both dialects spell alike. */
  predicate Neutral(c: Condition)
    decreases c, 1
  {
    match c
    case EqAny(_, vs) => vs == []
    case Group(items) => NeutralItems(items)
    case Subquery(_, _, _, inner) => NeutralItems(inner)
    case JsonGet(_, _, _) => false
    case FullTextMatch(_, _, _) => false
    case FullTextRank(_, _, _, _) => false
    case _ => true
  }

  predicate NeutralItems(items: seq<Item>)
    decreases items, 0
  {
    items != [] ==>
      assert items[0].cond < items[0];
      Neutral(items[0].cond) && NeutralItems(items[1..])
  }

  /** Up to its numbers, a rendering depends on neither the offset nor, for neutral conditions, the dialect. */
  lemma {:induction false} CondErase(d: Dialect, d': Dialect, c: Condition, off: nat, off': nat)
    requires d == d' || Neutral(c)
    ensures Erase(CondToks(d, c, off)) == Erase(CondToks(d', c, off'))
    decreases c, 1
  {
    match c
    case Group(items) =>
      ItemsErase(d, d', items, off, off');
      EraseWrap([LP], ItemsToks(d, items, off), [RP]);
      EraseWrap([LP], ItemsToks(d', items, off'), [RP]);
    case Subquery(positive, table, fk, inner) =>
      ItemsErase(d, d', inner, off, off');
      ExtraErase(d, d', inner, off, off');
      var head := [Frag(SubqueryOpen(positive))] + [Frag(table)] + [Frag(" WHERE ")] + [Frag(fk)];
      EraseWrap(head, ExtraToks(d, inner, off), [Frag(")")]);
      EraseWrap(head, ExtraToks(d', inner, off'), [Frag(")")]);
    case _ => LeafErase(d, d', c, off, off');
  }

  lemma {:induction false} LeafErase(d: Dialect, d': Dialect, c: Condition, off: nat, off': nat)
    requires !c.Group? && !c.Subquery?
    requires d == d' || Neutral(c)
    ensures Erase(CondToks(d, c, off)) == Erase(CondToks(d', c, off'))
  {
    hide Doubled, ConfigText, CmpText, LikeText, SubqueryOpen, ListToks;
    match c
    case InList(neg, col, vs) => EraseIn(d, d', col, if neg then " NOT IN (" else " IN (", vs, off, off', ")");
    case EqAny(col, vs) =>
      EraseIn(d, d', col, " = ANY(ARRAY[", vs, off, off', "])");
      EraseIn(d, d', col, " IN (", vs, off, off', ")");
    case _ =>
      if IsSearch(c) {
        SearchErase(d, d', c, off, off');
      }
  }

  lemma {:induction false} SearchErase(d: Dialect, d': Dialect, c: Condition, off: nat, off': nat)
    requires IsSearch(c)
    requires d == d' || Neutral(c)
    ensures Erase(CondToks(d, c, off)) == Erase(CondToks(d', c, off'))
  {
    hide Doubled, ConfigText;
  }

  lemma {:induction false} ExtraErase(d: Dialect, d': Dialect, inner: seq<Item>, off: nat, off': nat)
    requires Erase(ItemsToks(d, inner, off)) == Erase(ItemsToks(d', inner, off'))
    ensures Erase(ExtraToks(d, inner, off)) == Erase(ExtraToks(d', inner, off'))
  {
    var body, body' := ItemsToks(d, inner, off), ItemsToks(d', inner, off');
    assert Erase(Opaque(body)) == Opaque(Erase(body));
    assert Erase(Opaque(body')) == Opaque(Erase(body'));
    EraseCat([Frag(" AND ")], Opaque(body));
    EraseCat([Frag(" AND ")], Opaque(body'));
  }

  lemma {:induction false} NeutralItemsIs(items: seq<Item>)
    requires NeutralItems(items) && items != []
    ensures Neutral(items[0].cond) && NeutralItems(items[1..])
  {
  }

  lemma {:induction false} ItemsErase(d: Dialect, d': Dialect, items: seq<Item>, off: nat, off': nat)
    requires d == d' || NeutralItems(items)
    ensures Erase(ItemsToks(d, items, off)) == Erase(ItemsToks(d', items, off'))
    decreases items, 0
  {
    hide *;
    if items == [] {
      NoItems(d, off);
      NoItems(d', off');
    } else {
      assert items[0].cond < items[0];
      var n := |CondParams(items[0].cond)|;
      if d != d' {
        NeutralItemsIs(items);
      }
      CondErase(d, d', items[0].cond, off, off');
      TailErase(d, d', items[1..], off + n, off' + n);
      ItemsIs(d, items, off);
      ItemsIs(d', items, off');
      EraseCat(CondToks(d, items[0].cond, off), TailToks(d, items[1..], off + n));
      EraseCat(CondToks(d', items[0].cond, off'), TailToks(d', items[1..], off' + n));
    }
  }

  lemma {:induction false} TailErase(d: Dialect, d': Dialect, items: seq<Item>, off: nat, off': nat)
    requires d == d' || NeutralItems(items)
    ensures Erase(TailToks(d, items, off)) == Erase(TailToks(d', items, off'))
    decreases items, 0
  {
    hide *;
    if items == [] {
      NoItems(d, off);
      NoItems(d', off');
    } else {
      assert items[0].cond < items[0];
      var n := |CondParams(items[0].cond)|;
      if d != d' {
        NeutralItemsIs(items);
      }
      CondErase(d, d', items[0].cond, off, off');
      TailErase(d, d', items[1..], off + n, off' + n);
      TailIs(d, items, off);
      TailIs(d', items, off');
      EraseJoined(items[0].op, CondToks(d, items[0].cond, off), TailToks(d, items[1..], off + n));
      EraseJoined(items[0].op, CondToks(d', items[0].cond, off'), TailToks(d', items[1..], off' + n));
    }
  }

  lemma {:induction false} EraseJoined(op: JoinOp, head: seq<Tok>, tail: seq<Tok>)
    ensures Erase([JoinTok(op)] + head + tail) == [JoinTok(op)] + Erase(head) + Erase(tail)
  {
  }
}
