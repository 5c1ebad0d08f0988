/** Rendered leaves, read back from their words, are the tests that were built; whole filters lift from them. */
module ColumnReading {
  import opened Text
  import opened Values
  import opened Tokens
  import opened Leaves
  import opened Search
  import opened Columns
  import opened Meaning
  import opened ExprMeaning
  import C = Conditions
  import E = Exprs

  // ----- Operator words -----

  lemma {:induction false} RelCompares(s: Scene, rel: string, a: SqlValue, b: SqlValue)
    requires RelOp(rel).Some?
    ensures Unspaced(" " + rel + " ") == Some(rel) && Orderings(rel) != {}
    ensures Read1(rel, s, a, b) == Compared(s, RelOp(rel).value, a, b)
  {
    var text := " " + rel + " ";
    assert text[1..|text| - 1] == rel;
    assert Same in Orderings("=") && Less in Orderings("!=") && Greater in Orderings(">") && Same in Orderings(">=");
    assert Less in Orderings("<") && Same in Orderings("<=");
  }

  /** The word between the blanks of an operator. */
  function Rel(op: CmpOp): string {
    match op
    case Eq => "="
    case Ne => "!="
    case Gt => ">"
    case Gte => ">="
    case Lt => "<"
    case Lte => "<="
  }

  lemma {:induction false} RelText(op: CmpOp)
    ensures CmpText(op) == " " + Rel(op) + " " && RelOp(Rel(op)) == Some(op)
  {
  }

  lemma {:induction false} WordCompares(s: Scene, op: CmpOp, a: SqlValue, b: SqlValue)
    ensures var word := Unspaced(CmpText(op));
            word.Some? && Orderings(word.value) != {} && Read1(word.value, s, a, b) == Compared(s, op, a, b)
  {
    hide *;
    RelText(op);
    RelCompares(s, Rel(op), a, b);
  }

  lemma {:induction false} WordMatches(s: Scene, op: LikeOp, a: SqlValue, b: SqlValue)
    ensures ReadBinary(a, LikeText(op), b, s) == Some(Matched(s, op, a, b))
  {
    assert " LIKE "[1..5] == "LIKE" && " NOT LIKE "[1..9] == "NOT LIKE" && " ILIKE "[1..6] == "ILIKE";
  }

  lemma {:induction false} EqualRead(s: Scene, a: SqlValue, b: SqlValue)
    ensures Read1("=", s, a, b) == Compared(s, Eq, a, b)
  {
  }

  lemma {:induction false} HalvedDoubled(text: string)
    ensures Halved(Doubled(text, '\'')) == text
  {
    if text != "" {
      var rest := Doubled(text[1..], '\'');
      HalvedDoubled(text[1..]);
      if text[0] == '\'' {
        assert Doubled(text, '\'')[2..] == rest;
      } else {
        assert Doubled(text, '\'')[1..] == rest;
      }
      assert [text[0]] + text[1..] == text;
    }
  }

  lemma {:induction false} KeyRead(key: string, open: string, close: string)
    ensures Key(open + Doubled(key, '\'') + close, open, close) == Some(key)
  {
    hide Halved, Doubled;
    var text := open + Doubled(key, '\'') + close;
    assert text[|text| - |close|..] == close;
    assert text[|open|..|text| - |close|] == Doubled(key, '\'');
    HalvedDoubled(key);
  }

  // ----- Lists -----

  lemma {:induction false} AnyIsAmong(s: Scene, x: SqlValue, vs: seq<SqlValue>)
    ensures ReadAny(x, vs, s) == Among(s, x, vs)
  {
    hide Compared, Read1;
    if vs != [] {
      var rest := vs[1..];
      AnyIsAmong(s, x, rest);
      EqualRead(s, x, vs[0]);
      assert forall i :: 0 < i < |vs| ==> vs[i] == rest[i - 1];
      assert forall i :: 0 <= i < |rest| ==> rest[i] == vs[i + 1];
    }
  }

  lemma {:induction false} ErasedList(d: Dialect, vs: seq<SqlValue>, off: nat)
    requires vs != []
    ensures ReadPlaceholders(Erase(ListToks(d, vs, off))) == Some(vs)
  {
    var ts := ListToks(d, vs, off);
    if |vs| == 1 {
      assert Erase(ts) == [Ph(0, vs[0])] && [vs[0]] == vs;
    } else {
      var more := ListToks(d, vs[1..], off + 1);
      ErasedList(d, vs[1..], off + 1);
      assert Erase(ts) == [Ph(0, vs[0])] + [Frag(", ")] + Erase(more);
      assert Erase(ts)[2..] == Erase(more) && |more| > 0;
      assert [vs[0]] + vs[1..] == vs;
    }
  }

  lemma {:induction false} ListSize(d: Dialect, vs: seq<SqlValue>, off: nat)
    requires vs != []
    ensures |ListToks(d, vs, off)| == 2 * |vs| - 1
  {
    if |vs| > 1 {
      ListSize(d, vs[1..], off + 1);
    }
  }

  lemma {:induction false} ErasedIn(d: Dialect, col: string, op: string, vs: seq<SqlValue>, off: nat, close: string)
    requires vs != []
    ensures var ts := Erase(InToks(d, col, op, vs, off, close));
            && |ts| == 2 * |vs| + 2 && ts[0] == Frag(col) && ts[1] == Frag(op) && ts[|ts| - 1] == Frag(close)
            && ReadPlaceholders(ts[2..|ts| - 1]) == Some(vs)
  {
    hide ReadPlaceholders;
    var list := ListToks(d, vs, off);
    var ts := Erase(InToks(d, col, op, vs, off, close));
    ListSize(d, vs, off);
    ErasedList(d, vs, off);
    assert ts == [Frag(col)] + [Frag(op)] + Erase(list) + [Frag(close)];
    assert ts[2..|ts| - 1] == Erase(list);
  }

  lemma {:induction false} InRead(d: Dialect, neg: bool, col: string, vs: seq<SqlValue>, off: nat, s: Scene)
    requires vs != []
    ensures ReadAtomic(Erase(InToks(d, col, if neg then " NOT IN (" else " IN (", vs, off, ")")), s)
         == Flip(neg, Among(s, s.value(col), vs))
  {
    var op := if neg then " NOT IN (" else " IN (";
    var ts := Erase(InToks(d, col, op, vs, off, ")"));
    ErasedIn(d, col, op, vs, off, ")");
    hide Erase, InToks, ReadPlaceholders, Among, ReadAny;
    assert ts[1..][1..|ts| - 2] == ts[2..|ts| - 1];
    AnyIsAmong(s, s.value(col), vs);
  }

  lemma {:induction false} AnyRead(d: Dialect, col: string, vs: seq<SqlValue>, off: nat, s: Scene)
    requires vs != []
    ensures ReadAtomic(Erase(InToks(d, col, " = ANY(ARRAY[", vs, off, "])")), s) == Among(s, s.value(col), vs)
  {
    var ts := Erase(InToks(d, col, " = ANY(ARRAY[", vs, off, "])"));
    ErasedIn(d, col, " = ANY(ARRAY[", vs, off, "])");
    hide Erase, InToks, ReadPlaceholders, Among, ReadAny;
    assert ts[1..][1..|ts| - 2] == ts[2..|ts| - 1];
    AnyIsAmong(s, s.value(col), vs);
  }

  // ----- The other leaves that both languages have -----

  lemma {:induction false} BinaryRead(d: Dialect, col: string, op: string, v: SqlValue, off: nat, s: Scene)
    requires ReadBinary(s.value(col), op, v, s).Some?
    ensures ReadAtomic(Erase(BinaryToks(d, col, op, v, off)), s) == ReadBinary(s.value(col), op, v, s).value
  {
    hide ReadBinary, ReadText, ReadIn, ReadRange, ReadNull;
    var ts := Erase(BinaryToks(d, col, op, v, off));
    assert ts == [Frag(col)] + [Frag(op)] + [Ph(0, v)];
    assert ts[1..] == [Frag(op)] + [Ph(0, v)];
  }

  lemma {:induction false} ComparisonRead(d: Dialect, col: string, op: CmpOp, v: SqlValue, off: nat, s: Scene)
    ensures ReadAtomic(Erase(BinaryToks(d, col, CmpText(op), v, off)), s) == Compared(s, op, s.value(col), v)
  {
    hide CmpText, Compared, Orderings, Read1, ReadAtomic, Erase, BinaryToks, Unspaced;
    WordCompares(s, op, s.value(col), v);
    BinaryRead(d, col, CmpText(op), v, off, s);
  }

  lemma {:induction false} MatchRead(d: Dialect, col: string, op: LikeOp, v: SqlValue, off: nat, s: Scene)
    ensures ReadAtomic(Erase(BinaryToks(d, col, LikeText(op), v, off)), s) == Matched(s, op, s.value(col), v)
  {
    hide LikeText, Matched, ReadAtomic, Erase, BinaryToks, ReadBinary;
    WordMatches(s, op, s.value(col), v);
    BinaryRead(d, col, LikeText(op), v, off, s);
  }

  lemma {:induction false} NullRead(isNull: bool, col: string, s: Scene)
    ensures ReadAtomic(Erase(NullToks(isNull, col)), s) == Of(s.value(col).Null? == isNull)
  {
    var ts := Erase(NullToks(isNull, col));
    assert ts == [Frag(col)] + [Frag(if isNull then " IS NULL" else " IS NOT NULL")];
    assert ts[1..] == [ts[1]];
  }

  lemma {:induction false} BetweenRead(d: Dialect, neg: bool, col: string, lo: SqlValue, hi: SqlValue, off: nat, s: Scene)
    ensures ReadAtomic(Erase(BetweenToks(d, neg, col, lo, hi, off)), s) == Flip(neg, Ranged(s, s.value(col), lo, hi))
  {
    var op := Frag(if neg then " NOT BETWEEN " else " BETWEEN ");
    var ts := Erase(BetweenToks(d, neg, col, lo, hi, off));
    assert ts == [Frag(col)] + [op] + [Ph(0, lo)] + [Frag(" AND ")] + [Ph(0, hi)];
    var after := ts[1..];
    assert after == [op] + [Ph(0, lo)] + [Frag(" AND ")] + [Ph(0, hi)];
    hide Erase, BetweenToks, ReadIn;
    RangeRead(s, s.value(col), lo, hi);
  }

  lemma {:induction false} RangeRead(s: Scene, x: SqlValue, lo: SqlValue, hi: SqlValue)
    ensures TAnd(Read1(">=", s, x, lo), Read1("<=", s, x, hi)) == Ranged(s, x, lo, hi)
  {
  }

  lemma {:induction false} TextRead(text: string, s: Scene)
    ensures ReadAtomic(Erase([Frag(text)]), s) == ReadText(text, s)
  {
    hide ReadText;
    assert Erase([Frag(text)]) == [Frag(text)];
  }

  // ----- Conditions -----

  lemma {:induction false} JsonRead(d: Dialect, c: C.Condition, s: Scene)
    requires c.JsonGet?
    ensures ReadAtomic(Erase(C.CondToks(d, c, 1)), s) == CondTest(d, c, s)
  {
    hide Compared, Read1, ReadText;
    var x := s.member(s.value(c.col), c.key);
    EqualRead(s, x, c.val);
    if d.Postgres? {
      PostgresKey(s.value(c.col), c.key, c.val, s);
      BinaryRead(d, c.col, "->>'" + Doubled(c.key, '\'') + "' = ", c.val, 1, s);
    } else {
      ExtractRead(c.col, c.key, c.val, s);
    }
  }

  lemma {:induction false} PostgresKey(x: SqlValue, key: string, v: SqlValue, s: Scene)
    ensures ReadBinary(x, "->>'" + Doubled(key, '\'') + "' = ", v, s) == Some(Read1("=", s, s.member(x, key), v))
  {
    hide Key, Doubled, Read1;
    var op := "->>'" + Doubled(key, '\'') + "' = ";
    assert op[0] == '-';
    KeyRead(key, "->>'", "' = ");
  }

  lemma {:induction false} ExtractRead(col: string, key: string, v: SqlValue, s: Scene)
    ensures ReadAtomic(Erase(C.CondToks(Qmark, C.JsonGet(col, key, v), 1)), s)
         == Read1("=", s, s.member(s.value(col), key), v)
  {
    hide Key, Doubled, Read1, ReadText, ReadExists;
    var op := ", '$." + Doubled(key, '\'') + "') = ";
    var ts := Erase(C.CondToks(Qmark, C.JsonGet(col, key, v), 1));
    assert ts == [Frag("json_extract(")] + [Frag(col)] + [Frag(op)] + [Ph(0, v)];
    KeyRead(key, ", '$.", "') = ");
    var after := ts[1..];
    assert after == [Frag(col)] + [Frag(op)] + [Ph(0, v)];
    assert after[1..2] == [Frag(op)];
  }

  lemma {:induction false} SearchRead(d: Dialect, c: C.Condition, s: Scene)
    requires c.FullTextMatch?
    ensures ReadAtomic(Erase(C.CondToks(d, c, 1)), s) == CondTest(d, c, s)
  {
    hide Doubled, C.ConfigText;
    if d.Postgres? {
      TsqueryRead(c, s);
    } else {
      var ts := Erase(C.CondToks(d, c, 1));
      assert ts == [Frag(c.col)] + [Frag(" MATCH ")] + [Ph(0, Txt(c.query))];
      assert ts[1..] == [Frag(" MATCH ")] + [Ph(0, Txt(c.query))];
      assert " MATCH "[1..6] == "MATCH" && |"MATCH"| == 5;
      assert " MATCH "[0] == ' ';
    }
  }

  lemma {:induction false} TsqueryRead(c: C.Condition, s: Scene)
    requires c.FullTextMatch?
    ensures ReadAtomic(Erase(C.CondToks(Postgres, c, 1)), s) == s.search(s.value(c.col), c.config, Txt(c.query))
  {
    hide C.ConfigText, ReadText, ReadExists, Key, ReadBinary, ReadNull, ReadPlaceholders, ReadQuery;
    var op := " @@ to_tsquery(" + C.ConfigText(c.config);
    var ts := Erase(C.CondToks(Postgres, c, 1));
    assert ts == [Frag(c.col)] + [Frag(op)] + [Ph(0, Txt(c.query))] + [Frag(")")];
    assert ts[1..] == [Frag(op), Ph(0, Txt(c.query)), Frag(")")];
    TsqueryWords(s.value(c.col), c.config, Txt(c.query), s);
  }

  lemma {:induction false} TsqueryWords(x: SqlValue, config: Option<string>, q: SqlValue, s: Scene)
    ensures ReadQuery(x, [Frag(" @@ to_tsquery(" + C.ConfigText(config)), Ph(0, q), Frag(")")], s) == Some(s.search(x, config, q))
  {
    hide Key, Doubled;
    var op := " @@ to_tsquery(" + C.ConfigText(config);
    if config.None? {
      assert op == " @@ to_tsquery(";
    } else {
      KeyRead(config.value, " @@ to_tsquery('", "', ");
      assert op == " @@ to_tsquery('" + Doubled(config.value, '\'') + "', ";
    }
  }

  lemma {:induction false} RankRead(d: Dialect, c: C.Condition, s: Scene)
    requires c.FullTextRank?
    ensures ReadAtomic(Erase(C.CondToks(d, c, 1)), s) == s.other(Erase(C.CondToks(d, c, 1)))
  {
    hide C.ConfigText, ReadText, ReadExists, Key, ReadBinary, ReadNull;
    var op := if d.Postgres? then "), to_tsquery(" + C.ConfigText(c.config) else "), ";
    var close := if d.Postgres? then ")) AS " else ") AS ";
    var ts := Erase(C.CondToks(d, c, 1));
    assert ts == [Frag("ts_rank(to_tsvector(")] + [Frag(c.col)] + [Frag(op)] + [Ph(0, Txt(c.query))] + [Frag(close)] + [Frag(c.alias)];
    var after := ts[1..];
    assert after == [Frag(c.col)] + [Frag(op)] + [Ph(0, Txt(c.query))] + [Frag(close)] + [Frag(c.alias)];
    assert after[1..4] == [Frag(op)] + [Ph(0, Txt(c.query))] + [Frag(close)];
    assert op[0] == ')' && " WHERE "[0] == ' ';
  }

  lemma {:induction false} InsideRead(word: string, mid: string)
    requires word != ""
    ensures Inside(word + mid + ")", word) == Some(mid)
  {
    var text := word + mid + ")";
    assert text[|word|..|text| - 1] == mid;
  }

  lemma {:induction false} ExistsRead(positive: bool, sub: string, s: Scene)
    ensures ReadExists((if positive then "EXISTS (" else "NOT EXISTS (") + sub + ")", s) == Some(Flip(!positive, s.finds(sub)))
  {
    if positive {
      InsideRead("EXISTS (", sub);
    } else {
      InsideRead("NOT EXISTS (", sub);
      assert ("NOT EXISTS (" + sub + ")")[0] == 'N';
    }
  }

  lemma {:induction false} SubqueryInline(d: Dialect, c: C.Condition)
    requires c.Subquery?
    ensures Inline(Erase(C.CondToks(d, c, 1)))
         == (if c.positive then "EXISTS (" else "NOT EXISTS (") + SubqueryText(d, c.table, c.fkExpr, c.inner) + ")"
  {
    hide C.ItemsToks;
    var open, extra := C.SubqueryOpen(c.positive), C.ExtraToks(d, c.inner, 1);
    var tail := if c.inner == [] then "" else " AND " + Inline(C.ItemsToks(d, c.inner, 1));
    ExtraInline(d, c.inner);
    EraseKeepsInline(C.CondToks(d, c, 1));
    SubqueryIs(d, c);
    hide *;
    var t1, t2, t3, t4 := [Frag(open)], [Frag(c.table)], [Frag(" WHERE ")], [Frag(c.fkExpr)];
    InlineCat(t1 + t2 + t3 + t4 + extra, [Frag(")")]);
    InlineCat(t1 + t2 + t3 + t4, extra);
    InlineCat(t1 + t2 + t3, t4);
    InlineCat(t1 + t2, t3);
    InlineCat(t1, t2);
    InlineOne(open);
    InlineOne(c.table);
    InlineOne(" WHERE ");
    InlineOne(c.fkExpr);
    InlineOne(")");
    OpenText(d, c, tail);
  }

  lemma {:induction false} ExtraInline(d: Dialect, inner: seq<C.Item>)
    ensures Inline(C.ExtraToks(d, inner, 1)) == if inner == [] then "" else " AND " + Inline(C.ItemsToks(d, inner, 1))
  {
    hide C.ItemsToks, Opaque;
    var items := C.ItemsToks(d, inner, 1);
    OpaqueText(items);
    InlineCat([Frag(" AND ")], Opaque(items));
    InlineOne(" AND ");
  }

  lemma {:induction false} SubqueryIs(d: Dialect, c: C.Condition)
    requires c.Subquery?
    ensures C.CondToks(d, c, 1)
         == [Frag(C.SubqueryOpen(c.positive))] + [Frag(c.table)] + [Frag(" WHERE ")] + [Frag(c.fkExpr)]
            + C.ExtraToks(d, c.inner, 1) + [Frag(")")]
  {
    hide C.ExtraToks;
  }

  lemma {:induction false} OpenText(d: Dialect, c: C.Condition, tail: string)
    requires c.Subquery?
    requires tail == if c.inner == [] then "" else " AND " + Inline(C.ItemsToks(d, c.inner, 1))
    ensures C.SubqueryOpen(c.positive) + c.table + " WHERE " + c.fkExpr + tail + ")"
         == (if c.positive then "EXISTS (" else "NOT EXISTS (") + SubqueryText(d, c.table, c.fkExpr, c.inner) + ")"
  {
    hide Inline, C.ItemsToks, C.SubqueryOpen;
    var word, select := if c.positive then "EXISTS (" else "NOT EXISTS (", "SELECT 1 FROM ";
    OpenIs(c.positive);
    assert SubqueryText(d, c.table, c.fkExpr, c.inner) == select + c.table + " WHERE " + c.fkExpr + tail;
    hide *;
    Regroup(word, select, c.table, " WHERE ", c.fkExpr, tail);
  }

  lemma {:induction false} OpenIs(positive: bool)
    ensures C.SubqueryOpen(positive) == (if positive then "EXISTS (" else "NOT EXISTS (") + "SELECT 1 FROM "
  {
  }

  lemma {:induction false} Regroup(word: string, a: string, b: string, c: string, d: string, e: string)
    ensures (word + a) + b + c + d + e + ")" == word + (a + b + c + d + e) + ")"
  {
    assert (word + a) + b == word + (a + b);
    assert word + (a + b) + c == word + (a + b + c);
    assert word + (a + b + c) + d == word + (a + b + c + d);
    assert word + (a + b + c + d) + e == word + (a + b + c + d + e);
  }

  lemma {:induction false} SubqueryRead(d: Dialect, c: C.Condition, s: Scene)
    requires c.Subquery?
    ensures ReadAtomic(Erase(C.CondToks(d, c, 1)), s) == CondTest(d, c, s)
  {
    hide Inline, ReadExists, SubqueryText, C.ExtraToks, C.SubqueryOpen, ReadText, ReadBinary, ReadNull, Key;
    SubqueryInline(d, c);
    ExistsRead(c.positive, SubqueryText(d, c.table, c.fkExpr, c.inner), s);
    var ts := Erase(C.CondToks(d, c, 1));
    assert ts[0] == Frag(C.SubqueryOpen(c.positive)) && ts[1] == Frag(c.table) && ts[2] == Frag(" WHERE ") && |ts| > 4;
    var after := ts[1..];
    assert after[1..|after| - 1][0] == Frag(" WHERE ");
  }

  /** In both dialects and at any offset, the rendering of a condition reads as the test that was built. */
  lemma {:induction false} CondReads(d: Dialect, c: C.Condition, off: nat, s: Scene)
    requires !c.Group?
    ensures ReadAtomic(Erase(C.CondToks(d, c, off)), s) == CondTest(d, c, s)
  {
    hide ReadAtomic, Erase, Compared, Matched, Among, Ranged, ReadText, InToks, BinaryToks, NullToks, BetweenToks;
    C.CondErase(d, d, c, off, 1);
    match c
    case Compare(op, col, v) => ComparisonRead(d, col, op, v, 1, s);
    case Match(op, col, p) => MatchRead(d, col, op, Txt(p), 1, s);
    case NullTest(isNull, col) => NullRead(isNull, col, s);
    case InList(neg, col, vs) =>
      if vs == [] {
        EmptyListRead(neg, s, s.value(col));
      } else {
        InRead(d, neg, col, vs, 1, s);
      }
    case EqAny(col, vs) =>
      if vs == [] {
        EmptyListRead(false, s, s.value(col));
      } else if d.Postgres? {
        AnyRead(d, col, vs, 1, s);
      } else {
        InRead(d, false, col, vs, 1, s);
      }
    case Between(neg, col, lo, hi) => BetweenRead(d, neg, col, lo, hi, 1, s);
    case Raw(sql) => TextRead(sql, s);
    case JsonGet(_, _, _) => JsonRead(d, c, s);
    case Subquery(_, _, _, _) => SubqueryRead(d, c, s);
    case FullTextMatch(_, _, _) => SearchRead(d, c, s);
    case FullTextRank(_, _, _, _) => RankRead(d, c, s);
  }

  /** Nothing is among no values, and what is read is a constant. */
  lemma {:induction false} EmptyListRead(neg: bool, s: Scene, x: SqlValue)
    ensures ReadAtomic(Erase([Frag(if neg then "1=1" else "1=0")]), s) == Flip(neg, Among(s, x, []))
  {
    hide Compared;
    TextRead(if neg then "1=1" else "1=0", s);
  }

  // ----- Expressions -----

  lemma {:induction false} NameRunOf(name: string, rest: string)
    requires forall i :: 0 <= i < |name| ==> NameChar(name[i])
    requires rest == "" || !NameChar(rest[0])
    ensures NameRun(name + rest) == |name|
  {
    if name == "" {
      assert name + rest == rest;
    } else {
      NameRunOf(name[1..], rest);
      assert (name + rest)[1..] == name[1..] + rest;
    }
  }

  /** A word that begins the text has its first blank where the name ends. */
  lemma {:induction false} FirstBlank(name: string, rest: string, word: string, n: nat)
    requires IsName(name) && |rest| > 1 && rest[0] == ' ' && word <= name + rest
    requires n + 1 < |word| && word[n] == ' ' && forall i :: 0 <= i < n ==> word[i] != ' '
    ensures |name| == n && rest[1] == word[n + 1]
  {
    var text := name + rest;
    assert text[n] == ' ' && text[|name|] == ' ';
    assert forall i :: 0 <= i < |name| ==> text[i] == name[i] && NameChar(text[i]);
    assert forall i :: 0 <= i < n ==> text[i] == word[i];
    assert text[n + 1] == word[n + 1];
  }

  /** Text that begins with a name and a blank is neither a constant nor an EXISTS. */
  lemma {:induction false} NamedText(name: string, rest: string, s: Scene)
    requires IsName(name) && |rest| > 1 && rest[0] == ' ' && rest[1] != '(' && rest[1] != 'E'
    ensures name + rest != "1=1" && name + rest != "1=0" && ReadExists(name + rest, s).None?
  {
    var text := name + rest;
    assert text[|name|] == ' ';
    if "EXISTS (" <= text {
      FirstBlank(name, rest, "EXISTS (", 6);
    }
    if "NOT EXISTS (" <= text {
      FirstBlank(name, rest, "NOT EXISTS (", 3);
    }
  }

  lemma {:induction false} NamedRead(name: string, rest: string, s: Scene)
    requires IsName(name) && |rest| > 1 && rest[0] == ' ' && rest[1] != '(' && rest[1] != 'E'
    requires ReadNamed(name, rest, s).Some?
    ensures ReadText(name + rest, s) == ReadNamed(name, rest, s).value
  {
    hide ReadNamed, ReadExists;
    NamedText(name, rest, s);
    NameRunOf(name, rest);
    assert (name + rest)[..|name|] == name && (name + rest)[|name|..] == rest;
  }

  lemma {:induction false} ColumnsRead(a: string, b: string, s: Scene)
    requires IsName(a) && IsName(b)
    ensures ReadText(a + " = " + b, s) == Compared(s, Eq, s.value(a), s.value(b))
  {
    hide ReadText, Read1, Compared, IsName;
    var rest := " = " + b;
    assert rest[3..] == b && a + " = " + b == a + rest;
    EqualRead(s, s.value(a), s.value(b));
    NamedRead(a, rest, s);
  }

  lemma {:induction false} WithinRead(neg: bool, col: string, sub: string, s: Scene)
    requires IsName(col)
    ensures ReadText(E.InSubqueryText(neg, col, sub), s) == Flip(neg, s.within(s.value(col), sub))
  {
    hide ReadText, IsName, Inside;
    var word := if neg then " NOT IN (" else " IN (";
    var rest := word + sub + ")";
    InsideRead(word, sub);
    assert E.InSubqueryText(neg, col, sub) == col + rest;
    assert rest[1] != '=';
    if neg {
      NotInside(rest);
    }
    NamedRead(col, rest, s);
  }

  lemma {:induction false} NotInside(rest: string)
    requires " NOT IN (" <= rest
    ensures Inside(rest, " IN (").None?
  {
    assert rest[1] == 'N' && " IN ("[1] == 'I';
  }

  lemma {:induction false} ExistsText(positive: bool, sub: string, s: Scene)
    ensures ReadText(E.ExistsText(positive, sub), s) == Flip(!positive, s.finds(sub))
  {
    hide ReadExists, ReadNamed;
    ExistsRead(positive, sub, s);
    var text := E.ExistsText(positive, sub);
    assert text[0] == if positive then 'E' else 'N';
  }

  lemma {:induction false} AggRead(d: Dialect, e: E.Expr, s: Scene)
    requires e.AggCmp? && RelOp(e.rel).Some?
    ensures ReadAtomic(Erase(E.ExprToks(d, e, 1)), s) == Compared(s, RelOp(e.rel).value, s.value(e.agg), e.val)
  {
    hide Compared, Orderings, Read1, ReadAtomic, Erase, BinaryToks, RelOp, Unspaced;
    RelCompares(s, e.rel, s.value(e.agg), e.val);
    BinaryRead(d, e.agg, " " + e.rel + " ", e.val, 1, s);
  }

  lemma {:induction false} CaseStarts(d: Dialect, e: E.Expr)
    requires e.Case?
    ensures var ts := Erase(E.ExprToks(d, e, 1));
            |ts| > 1 && ts[0] == Frag("CASE") && (ts[1] == Frag(" WHEN ") || ts[1] == Frag(" ELSE ") || ts[1] == Frag(" END"))
  {
    hide E.ExprParams, Opaque;
    var ts := E.ExprToks(d, e, 1);
    var body := E.BranchToks(d, e.branches, 1);
    if e.branches != [] {
      var first := E.OneBranch(d, e.branches[0], 1);
      assert |first| > 0 && first[0] == Frag(" WHEN ");
      assert |body| > 0 && body[0] == first[0];
    }
    assert ts == E.CaseToks(d, e.branches, e.elseVal, 1);
    assert ts == [Frag("CASE")] + body + E.ElseToks(d, e.elseVal, 1 + |E.BranchParams(e.branches)|) + [Frag(" END")];
  }

  lemma {:induction false} CaseRead(d: Dialect, e: E.Expr, s: Scene)
    requires e.Case?
    ensures ReadAtomic(Erase(E.ExprToks(d, e, 1)), s) == s.other(Erase(E.ExprToks(d, e, 1)))
  {
    hide E.ExprToks, ReadAfter, Erase, Inline;
    var ts := Erase(E.ExprToks(d, e, 1));
    CaseStarts(d, e);
    CaseWords(s.value("CASE"), ts[1..], s);
    InlineIs(ts);
    assert Inline(ts)[0] == 'C';
  }

  lemma {:induction false} CaseWords(x: SqlValue, after: seq<Tok>, s: Scene)
    requires after != [] && (after[0] == Frag(" WHEN ") || after[0] == Frag(" ELSE ") || after[0] == Frag(" END"))
    ensures ReadAfter(x, after, s).None?
  {
    hide ReadPlaceholders, Halved;
    assert " WHEN "[1..5] == "WHEN" && " ELSE "[1..5] == "ELSE" && |" END"| == 4 && " END"[3] != ' ';
    assert " WHEN "[1] == 'W' && " ELSE "[1] == 'E' && " END"[1] == 'E';
  }

  predicate IsTest(e: E.Expr) {
    !e.And? && !e.Or? && !e.Not?
  }

  /** In both dialects and at any offset, the rendering of an expression's leaf reads as the test that was built. */
  lemma {:induction false} ExprReads(d: Dialect, e: E.Expr, off: nat, s: Scene)
    requires IsTest(e) && Plain(e)
    ensures ReadAtomic(Erase(E.ExprToks(d, e, off)), s) == ExprTest(d, e, s)
  {
    hide ReadAtomic, Erase, Compared, Matched, Among, Ranged, ReadText, InToks, BinaryToks, NullToks, BetweenToks,
         E.CaseToks, RelOp, IsName;
    E.ExprErase(d, d, e, off, 1);
    match e
    case Compare(op, col, v) => ComparisonRead(d, col, op, v, 1, s);
    case Match(op, col, v) => MatchRead(d, col, op, v, 1, s);
    case InList(neg, col, vs) => InRead(d, neg, col, vs, 1, s);
    case EqAny(col, vs) =>
      if vs == [] {
        EmptyListRead(false, s, s.value(col));
      } else {
        AnyRead(d, col, vs, 1, s);
      }
    case NullTest(isNull, col) => NullRead(isNull, col, s);
    case Between(neg, col, lo, hi) => BetweenRead(d, neg, col, lo, hi, 1, s);
    case ColEq(a, b) =>
      TextRead(a + " = " + b, s);
      ColumnsRead(a, b, s);
    case AggCmp(_, _, _) => AggRead(d, e, s);
    case Raw(sql) => TextRead(sql, s);
    case Exists(positive, sub) =>
      TextRead(E.ExistsText(positive, sub), s);
      ExistsText(positive, sub, s);
    case InSubquery(neg, col, sub) =>
      TextRead(E.InSubqueryText(neg, col, sub), s);
      WithinRead(neg, col, sub, s);
    case Case(_, _) => CaseRead(d, e, s);
  }

  /** An IN test on no values has no operand to read, and no database accepts it. */
  lemma {:induction false} EmptyInHasNoTest(d: Dialect, neg: bool, col: string, off: nat, s: Scene)
    ensures var ts := Erase(E.ExprToks(d, E.InList(neg, col, []), off));
            ReadAfter(s.value(col), ts[1..], s).None? && ReadAtomic(ts, s) == s.other(ts)
  {
    hide ReadBinary, ReadNull, ReadExists;
    var op := Frag(if neg then " NOT IN (" else " IN (");
    var ts := Erase(E.ExprToks(d, E.InList(neg, col, []), off));
    assert ts == [Frag(col)] + [op] + [Frag(")")];
    assert ts[1..] == [op] + [Frag(")")];
  }

  // ----- Whole filters -----

  /** The row that decides atomic predicates by reading them. */
  function Sight(s: Scene): Row {
    ts => ReadAtomic(ts, s)
  }

  /** A group is the OR of its maximal AND-runs, every other condition the test it was built to make. */
  function CondMeaning(c: C.Condition, s: Scene): Tri
    decreases c, 1
  {
    if c.Group? then if c.items == [] then Unknown else OrOfRuns(ItemMeanings(c.items, s))
    else CondTest(Postgres, c, s)
  }

  function ItemMeanings(items: seq<C.Item>, s: Scene): (js: seq<Joined>)
    ensures |js| == |items|
    decreases items, 0
  {
    if items == [] then []
    else
      assert items[0].cond < items[0];
      [Joined(items[0].op, CondMeaning(items[0].cond, s))] + ItemMeanings(items[1..], s)
  }

  lemma {:induction false} CondSight(c: C.Condition, s: Scene)
    ensures CondEval(c, Sight(s)) == CondMeaning(c, s)
    decreases c, 1
  {
    hide CondTest, ReadAtomic, Erase, C.CondToks, OrOfRuns;
    if c.Group? {
      ItemsSight(c.items, s);
    } else {
      CondReads(Postgres, c, 1, s);
    }
  }

  lemma {:induction false} ItemsSight(items: seq<C.Item>, s: Scene)
    ensures ItemVals(items, Sight(s)) == ItemMeanings(items, s)
    decreases items, 0
  {
    hide CondEval, CondMeaning;
    if items != [] {
      assert items[0].cond < items[0];
      CondSight(items[0].cond, s);
      ItemsSight(items[1..], s);
    }
  }

  /**
   * A rendered WHERE list, read with SQL precedence and its atomic predicates by their words, means on every row of
   * column values the OR of its maximal AND-runs of the tests that were built.
   */
  lemma {:induction false} WhereTests(items: seq<C.Item>, off: nat, s: Scene)
    requires items != [] && SolidItems(items)
    ensures var t := Read(C.ItemsToks(Postgres, items, off));
            t.Some? && Eval(t.value, Sight(s)) == OrOfRuns(ItemMeanings(items, s))
  {
    hide Read, Eval, OrOfRuns, C.ItemsToks, ItemMeanings, ItemVals, SolidItems, Sight;
    WhereMeans(items, off, Sight(s));
    ItemsSight(items, s);
  }

  function TreeMeaning(e: E.Expr, s: Scene): Tri
    requires Plain(e)
  {
    match e
    case And(l, r) => TAnd(TreeMeaning(l, s), TreeMeaning(r, s))
    case Or(l, r) => TOr(TreeMeaning(l, s), TreeMeaning(r, s))
    case Not(inner) => TNot(TreeMeaning(inner, s))
    case _ => ExprTest(Postgres, e, s)
  }

  lemma {:induction false} ExprSight(e: E.Expr, s: Scene)
    requires Plain(e)
    ensures ExprEval(e, Sight(s)) == TreeMeaning(e, s)
  {
    hide ExprTest, ReadAtomic, Erase, E.ExprToks;
    match e
    case And(l, r) =>
      ExprSight(l, s);
      ExprSight(r, s);
    case Or(l, r) =>
      ExprSight(l, s);
      ExprSight(r, s);
    case Not(inner) => ExprSight(inner, s);
    case _ => ExprReads(Postgres, e, 1, s);
  }

  /** So does a rendered expression: in either dialect, it is the AND, OR and NOT of the tests that were built. */
  lemma {:induction false} ExprTests(d: Dialect, e: E.Expr, off: nat, s: Scene)
    requires Plain(e)
    ensures var t := Read(E.ExprToks(d, e, off)); t.Some? && Eval(t.value, Sight(s)) == TreeMeaning(e, s)
  {
    hide Read, Eval, E.ExprToks, ExprEval, TreeMeaning, Shape, Plain, Sight;
    ReadWhole(d, e, off);
    ShapeMeans(d, e, off, Sight(s));
    ExprSight(e, s);
  }
}
