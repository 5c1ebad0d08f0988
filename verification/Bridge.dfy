/** Translation between the two predicate languages, in both directions. */
module Bridge {
  import opened Text
  import opened Values
  import opened Tokens
  import opened Leaves
  import opened Meaning
  import opened ExprMeaning
  import opened Literals
  import C = Conditions
  import E = Exprs

  // ----- Expression to condition -----

  function ValueText(v: SqlValue): string {
    if v.Txt? then v.s else ToSqlLiteral(v)
  }

  function ExprToCond(e: E.Expr): C.Condition {
    match e
    case Compare(op, col, v) => C.Compare(op, col, v)
    case Match(op, col, v) => C.Match(op, col, ValueText(v))
    case InList(neg, col, vs) => C.InList(neg, col, vs)
    case NullTest(n, col) => C.NullTest(n, col)
    case Between(neg, col, lo, hi) => C.Between(neg, col, lo, hi)
    case And(l, r) => C.Group([C.Item(JoinAnd, ExprToCond(l)), C.Item(JoinAnd, ExprToCond(r))])
    case Or(l, r) => C.Group([C.Item(JoinAnd, ExprToCond(l)), C.Item(JoinOr, ExprToCond(r))])
    case Not(inner) => C.Raw("NOT (" + ExprLiteral(inner) + ")")
    case Raw(s) => C.Raw(s)
    case Exists(positive, sub) => C.Raw(E.ExistsText(positive, sub))
    case InSubquery(neg, col, sub) => C.Raw(E.InSubqueryText(neg, col, sub))
    case ColEq(a, b) => C.Raw(a + " = " + b)
    case AggCmp(agg, op, v) => C.Raw(agg + " " + op + " " + ToSqlLiteral(v))
    case Case(bs, els) => C.Raw(ExprLiteral(e))
    case EqAny(_, _) => C.Raw("1=1")
  }

  /** AND/OR trees over the leaves that need no literal fallback. */
  predicate Plain(e: E.Expr) {
    match e
    case And(l, r) => Plain(l) && Plain(r)
    case Or(l, r) => Plain(l) && Plain(r)
    case Not(_) => false
    case Case(_, _) => false
    case AggCmp(_, _, _) => false
    case EqAny(_, _) => false
    case _ => true
  }

  /** Every IN list has an element, and every LIKE pattern is text. */
  predicate Direct(e: E.Expr) {
    match e
    case And(l, r) => Direct(l) && Direct(r)
    case Or(l, r) => Direct(l) && Direct(r)
    case InList(_, _, vs) => vs != []
    case Match(_, _, v) => v.Txt?
    case _ => true
  }

  lemma {:induction false} PairToks(d: Dialect, op: JoinOp, l: C.Condition, r: C.Condition, off: nat)
    ensures var c := C.Group([C.Item(JoinAnd, l), C.Item(op, r)]);
            && C.CondToks(d, c, off)
               == E.Bracket(C.CondToks(d, l, off), JoinTok(op), C.CondToks(d, r, off + |C.CondParams(l)|))
            && C.CondParams(c) == C.CondParams(l) + C.CondParams(r)
  {
    hide C.CondToks, C.CondParams, C.ItemsToks, C.TailToks, C.ItemsParams, JoinTok;
    var items, off' := [C.Item(JoinAnd, l), C.Item(op, r)], off + |C.CondParams(l)|;
    assert items[1..] == [C.Item(op, r)] && [C.Item(op, r)][1..] == [];
    C.GroupIs(d, items, off);
    C.ItemsIs(d, items, off);
    C.ItemsIs(d, [C.Item(op, r)], off');
    C.TailIs(d, [C.Item(op, r)], off');
    C.NoItems(d, off' + |C.CondParams(r)|);
  }

  lemma {:induction false} LeafAlike(d: Dialect, e: E.Expr, off: nat)
    requires Plain(e) && Direct(e) && !e.And? && !e.Or?
    ensures C.CondToks(d, ExprToCond(e), off) == E.ExprToks(d, e, off)
    ensures C.CondParams(ExprToCond(e)) == E.ExprParams(e)
  {
  }

  lemma {:induction false} PairIs(d: Dialect, e: E.Expr, off: nat)
    requires e.And? || e.Or?
    ensures var op := if e.And? then JoinAnd else JoinOr;
            && E.ExprToks(d, e, off)
               == E.Bracket(E.ExprToks(d, e.l, off), JoinTok(op), E.ExprToks(d, e.r, off + |E.ExprParams(e.l)|))
            && E.ExprParams(e) == E.ExprParams(e.l) + E.ExprParams(e.r)
            && ExprToCond(e) == C.Group([C.Item(JoinAnd, ExprToCond(e.l)), C.Item(op, ExprToCond(e.r))])
  {
  }

  /** The condition renders, at any offset and in either dialect, to the tokens and parameters of the expression. */
  lemma {:induction false} CondRendersAlike(d: Dialect, e: E.Expr, off: nat)
    requires Plain(e) && Direct(e)
    ensures C.CondToks(d, ExprToCond(e), off) == E.ExprToks(d, e, off)
    ensures C.CondParams(ExprToCond(e)) == E.ExprParams(e)
  {
    hide C.CondToks, C.CondParams, E.ExprToks, E.ExprParams, ExprToCond, E.Bracket;
    if e.And? || e.Or? {
      CondRendersAlike(d, e.l, off);
      CondRendersAlike(d, e.r, off + |E.ExprParams(e.l)|);
      PairIs(d, e, off);
      PairToks(d, if e.And? then JoinAnd else JoinOr, ExprToCond(e.l), ExprToCond(e.r), off);
    } else {
      LeafAlike(d, e, off);
    }
  }

  // ----- Exactly when -----

  lemma {:induction false} BracketText(left: seq<Tok>, join: Tok, right: seq<Tok>)
    requires join == AND || join == OR
    ensures Flatten(E.Bracket(left, join, right)) == "(" + Flatten(left) + Spell(join) + Flatten(right) + ")"
    ensures Flatten(E.Negated(left)) == "NOT (" + Flatten(left) + ")"
  {
    hide Flatten;
    FlattenCat([LP], left);
    FlattenCat([LP] + left, [join]);
    FlattenCat([LP] + left + [join], right);
    FlattenCat([LP] + left + [join] + right, [RP]);
    FlattenCat([NOT], [LP]);
    FlattenCat([NOT] + [LP], left);
    FlattenCat([NOT] + [LP] + left, [RP]);
    FlattenOne(LP);
    FlattenOne(join);
    FlattenOne(RP);
    FlattenOne(NOT);
    assert "NOT " + "(" == "NOT (";
  }

  /** Nothing in a literal fallback binds a value, and `= ANY` has none. */
  predicate KeepsParams(e: E.Expr) {
    match e
    case And(l, r) => KeepsParams(l) && KeepsParams(r)
    case Or(l, r) => KeepsParams(l) && KeepsParams(r)
    case Not(inner) => E.ExprParams(inner) == []
    case Case(bs, els) => E.ExprParams(e) == []
    case AggCmp(_, _, _) => false
    case EqAny(_, vs) => vs == []
    case _ => true
  }

  /** No sub-expression is `= ANY`, or an IN test on an empty list. */
  predicate KeepsText(e: E.Expr) {
    match e
    case And(l, r) => KeepsText(l) && KeepsText(r)
    case Or(l, r) => KeepsText(l) && KeepsText(r)
    case InList(_, _, vs) => vs != []
    case EqAny(_, _) => false
    case _ => true
  }

  /** No sub-expression matches against a value that is not text. */
  predicate TextPatterns(e: E.Expr) {
    match e
    case And(l, r) => TextPatterns(l) && TextPatterns(r)
    case Or(l, r) => TextPatterns(l) && TextPatterns(r)
    case Match(_, _, v) => v.Txt?
    case _ => true
  }

  /**
   * No IN list is empty, every LIKE pattern is text, negations and CASEs bind nothing, and there is neither an
   * aggregate comparison nor `= ANY`.
   */
  predicate Exact(e: E.Expr) {
    match e
    case And(l, r) => Exact(l) && Exact(r)
    case Or(l, r) => Exact(l) && Exact(r)
    case InList(_, _, vs) => vs != []
    case Match(_, _, v) => v.Txt?
    case Not(inner) => E.ExprParams(inner) == []
    case Case(bs, els) => E.ExprParams(e) == []
    case AggCmp(_, _, _) => false
    case EqAny(_, _) => false
    case _ => true
  }

  lemma {:induction false} ExactIs(e: E.Expr)
    ensures Exact(e) <==> KeepsParams(e) && KeepsText(e) && TextPatterns(e)
  {
    hide E.ExprParams;
    if e.And? || e.Or? {
      ExactIs(e.l);
      ExactIs(e.r);
    }
  }

  // Parameters can only be lost.

  lemma {:induction false} ParamCount(e: E.Expr)
    ensures |C.CondParams(ExprToCond(e))| <= |E.ExprParams(e)|
    ensures |C.CondParams(ExprToCond(e))| == |E.ExprParams(e)| <==> KeepsParams(e)
  {
    hide C.CondParams, E.ExprParams, ExprToCond, C.CondToks, E.ExprToks;
    if e.And? || e.Or? {
      ParamCount(e.l);
      ParamCount(e.r);
      PairIs(Postgres, e, 1);
      PairToks(Postgres, if e.And? then JoinAnd else JoinOr, ExprToCond(e.l), ExprToCond(e.r), 1);
    } else {
      LeafParams(e);
    }
  }

  lemma {:induction false} LeafParams(e: E.Expr)
    requires !e.And? && !e.Or?
    ensures |C.CondParams(ExprToCond(e))| <= |E.ExprParams(e)|
    ensures |C.CondParams(ExprToCond(e))| == |E.ExprParams(e)| <==> KeepsParams(e)
    ensures KeepsParams(e) ==> (C.CondParams(ExprToCond(e)) == E.ExprParams(e) <==> TextPatterns(e))
  {
    hide ExprLiteral;
  }

  lemma {:induction false} SplitEqual(a: seq<SqlValue>, b: seq<SqlValue>, a': seq<SqlValue>, b': seq<SqlValue>)
    requires |a| == |a'|
    ensures a + b == a' + b' <==> a == a' && b == b'
  {
    if a + b == a' + b' {
      assert a == (a + b)[..|a|] && a' == (a' + b')[..|a'|];
      assert b == (a + b)[|a|..] && b' == (a' + b')[|a'|..];
    }
  }

  lemma {:induction false} ParamsIff(e: E.Expr)
    requires KeepsParams(e)
    ensures C.CondParams(ExprToCond(e)) == E.ExprParams(e) <==> TextPatterns(e)
  {
    hide C.CondParams, E.ExprParams, ExprToCond, C.CondToks, E.ExprToks;
    if e.And? || e.Or? {
      ParamsIff(e.l);
      ParamsIff(e.r);
      ParamCount(e.l);
      PairIs(Postgres, e, 1);
      PairToks(Postgres, if e.And? then JoinAnd else JoinOr, ExprToCond(e.l), ExprToCond(e.r), 1);
      SplitEqual(C.CondParams(ExprToCond(e.l)), C.CondParams(ExprToCond(e.r)), E.ExprParams(e.l), E.ExprParams(e.r));
    } else {
      LeafParams(e);
    }
  }

  // Without parameters a literal fallback is the text of the expression.

  lemma {:induction false} NothingToErase(ts: seq<Tok>)
    requires Slots(ts) == []
    ensures Erase(ts) == ts
  {
    if ts != [] {
      NothingToErase(ts[1..]);
      assert ts == [ts[0]] + ts[1..] && Erase(ts) == [ts[0]] + Erase(ts[1..]);
    }
  }

  lemma {:induction false} NoParamsText(d: Dialect, e: E.Expr, off: nat)
    requires E.ExprParams(e) == []
    ensures Flatten(E.ExprToks(d, e, off)) == ExprLiteral(e)
  {
    hide E.ExprToks, E.ExprParams, Erase, Slots, Flatten;
    var ts, us := E.ExprToks(d, e, off), E.ExprToks(Postgres, e, 1);
    E.ExprErase(d, Postgres, e, off, 1);
    E.ExprNumbering(d, e, off);
    E.ExprNumbering(Postgres, e, 1);
    NothingToErase(ts);
    NothingToErase(us);
  }

  // The text can only get lighter, counting its length and its zeros.

  function Weight(s: string): nat {
    |s| + Count(s, '0')
  }

  lemma {:induction false} WeightCat(a: string, b: string)
    ensures Weight(a + b) == Weight(a) + Weight(b)
  {
    CountCat(a, b, '0');
  }

  lemma {:induction false} BracketWeight(left: string, join: string, right: string)
    ensures Weight("(" + left + join + right + ")")
         == Weight("(") + Weight(left) + Weight(join) + Weight(right) + Weight(")")
  {
    hide Weight;
    WeightCat("(" + left + join + right, ")");
    WeightCat("(" + left + join, right);
    WeightCat("(" + left, join);
    WeightCat("(", left);
  }

  lemma {:induction false} ZeroWeights()
    ensures Weight("1=1") == 3 && Weight("1=0") == 4
  {
    CountNone("1=1", '0');
    CountNone("1=", '0');
    CountOne('0');
    CountCat("1=", "0", '0');
    assert "1=" + "0" == "1=0";
  }

  /** An empty IN list makes the condition's text lighter than the expression's. */
  lemma {:induction false} EmptyInLighter(d: Dialect, e: E.Expr, off: nat)
    requires e.InList? && e.vals == []
    ensures Weight(Flatten(C.CondToks(d, ExprToCond(e), off))) < Weight(Flatten(E.ExprToks(d, e, off)))
  {
    var op := if e.neg then " NOT IN (" else " IN (";
    FlattenOne(Frag(if e.neg then "1=1" else "1=0"));
    assert E.ExprToks(d, e, off) == [Frag(e.col)] + ([Frag(op)] + [Frag(")")]);
    FlattenCat([Frag(e.col)], [Frag(op)] + [Frag(")")]);
    FlattenCat([Frag(op)], [Frag(")")]);
    FlattenOne(Frag(op));
    FlattenOne(Frag(")"));
    ZeroWeights();
  }

  /** `= ANY` on an empty list is false, and becomes true. */
  lemma {:induction false} EmptyAnyLighter(d: Dialect, e: E.Expr, off: nat)
    requires e.EqAny? && e.vals == []
    ensures Weight(Flatten(C.CondToks(d, ExprToCond(e), off))) < Weight(Flatten(E.ExprToks(d, e, off)))
  {
    FlattenOne(Frag("1=1"));
    FlattenOne(Frag("1=0"));
    ZeroWeights();
  }

  lemma {:induction false} MatchText(d: Dialect, e: E.Expr, off: nat)
    requires e.Match?
    ensures Flatten(C.CondToks(d, ExprToCond(e), off)) == Flatten(E.ExprToks(d, e, off))
  {
    var slot, slot' := Ph(Number(d, off), e.val), Ph(Number(d, off), Txt(ValueText(e.val)));
    var head := [Frag(e.col)] + [Frag(LikeText(e.like))];
    FlattenCat(head, [slot]);
    FlattenCat(head, [slot']);
    FlattenOne(slot);
    FlattenOne(slot');
  }

  lemma {:induction false} LeafText(d: Dialect, e: E.Expr, off: nat)
    requires KeepsParams(e) && KeepsText(e) && !e.And? && !e.Or?
    ensures Flatten(C.CondToks(d, ExprToCond(e), off)) == Flatten(E.ExprToks(d, e, off))
  {
    hide Flatten, ExprLiteral;
    if e.Match? {
      MatchText(d, e, off);
    } else if e.Not? {
      NoParamsText(d, e.inner, off);
      BracketText(E.ExprToks(d, e.inner, off), AND, []);
      FlattenOne(Frag("NOT (" + ExprLiteral(e.inner) + ")"));
    } else if e.Case? {
      NoParamsText(d, e, off);
      FlattenOne(Frag(ExprLiteral(e)));
    } else {
      LeafAlike(d, e, off);
    }
  }

  lemma {:induction false} SameText(d: Dialect, e: E.Expr, off: nat)
    requires KeepsParams(e) && KeepsText(e)
    ensures Flatten(C.CondToks(d, ExprToCond(e), off)) == Flatten(E.ExprToks(d, e, off))
  {
    hide C.CondToks, C.CondParams, E.ExprToks, E.ExprParams, ExprToCond, E.Bracket, Flatten, Spell;
    if e.And? || e.Or? {
      var op, off' := if e.And? then JoinAnd else JoinOr, off + |E.ExprParams(e.l)|;
      var l, r := ExprToCond(e.l), ExprToCond(e.r);
      SameText(d, e.l, off);
      SameText(d, e.r, off');
      ParamCount(e.l);
      PairIs(d, e, off);
      PairToks(d, op, l, r, off);
      BracketText(C.CondToks(d, l, off), JoinTok(op), C.CondToks(d, r, off'));
      BracketText(E.ExprToks(d, e.l, off), JoinTok(op), E.ExprToks(d, e.r, off'));
    } else {
      LeafText(d, e, off);
    }
  }

  lemma {:induction false} WeightIff(d: Dialect, e: E.Expr, off: nat)
    requires KeepsParams(e)
    ensures var c, t := Weight(Flatten(C.CondToks(d, ExprToCond(e), off))), Weight(Flatten(E.ExprToks(d, e, off)));
            c <= t && (c == t <==> KeepsText(e))
  {
    hide C.CondToks, C.CondParams, E.ExprToks, E.ExprParams, ExprToCond, E.Bracket, Flatten, Spell, Weight;
    if KeepsText(e) {
      SameText(d, e, off);
    } else if e.And? || e.Or? {
      var op, off' := if e.And? then JoinAnd else JoinOr, off + |E.ExprParams(e.l)|;
      var l, r := ExprToCond(e.l), ExprToCond(e.r);
      WeightIff(d, e.l, off);
      WeightIff(d, e.r, off');
      ParamCount(e.l);
      PairIs(d, e, off);
      PairToks(d, op, l, r, off);
      BracketText(C.CondToks(d, l, off), JoinTok(op), C.CondToks(d, r, off'));
      BracketText(E.ExprToks(d, e.l, off), JoinTok(op), E.ExprToks(d, e.r, off'));
      BracketWeight(Flatten(C.CondToks(d, l, off)), Spell(JoinTok(op)), Flatten(C.CondToks(d, r, off')));
      BracketWeight(Flatten(E.ExprToks(d, e.l, off)), Spell(JoinTok(op)), Flatten(E.ExprToks(d, e.r, off')));
    } else if e.InList? {
      EmptyInLighter(d, e, off);
    } else {
      EmptyAnyLighter(d, e, off);
    }
  }

  /**
   * For every expression: text and parameters are kept exactly when no IN list is empty, every LIKE pattern is text,
   * negations and CASEs bind nothing, and there is neither an aggregate comparison nor `= ANY`.
   */
  lemma {:induction false} CondRendersAlikeIff(d: Dialect, e: E.Expr, off: nat)
    ensures && Flatten(C.CondToks(d, ExprToCond(e), off)) == Flatten(E.ExprToks(d, e, off))
            && C.CondParams(ExprToCond(e)) == E.ExprParams(e)
       <==> Exact(e)
  {
    hide C.CondToks, C.CondParams, E.ExprToks, E.ExprParams, ExprToCond, Flatten, Weight;
    ExactIs(e);
    ParamCount(e);
    if KeepsParams(e) {
      ParamsIff(e);
      WeightIff(d, e, off);
      if KeepsText(e) {
        SameText(d, e, off);
      }
    }
  }

  /** `= ANY` falls to the catch-all arm: the filter and its values are lost. */
  lemma {:induction false} EqAnyLost(d: Dialect, col: string, vs: seq<SqlValue>, off: nat)
    ensures Flatten(C.CondToks(d, ExprToCond(E.EqAny(col, vs)), off)) == "1=1"
    ensures C.CondParams(ExprToCond(E.EqAny(col, vs))) == []
  {
    FlattenOne(Frag("1=1"));
  }

  // ----- Literal fallbacks -----

  /** As `Direct`, and no `$` in the operand of a fallback is taken for a placeholder; `= ANY` is not covered. */
  predicate Faithful(e: E.Expr) {
    match e
    case And(l, r) => Faithful(l) && Faithful(r)
    case Or(l, r) => Faithful(l) && Faithful(r)
    case Not(inner) => InlinableExpr(inner)
    case Case(_, _) => InlinableExpr(e)
    case InList(_, _, vs) => vs != []
    case Match(_, _, v) => v.Txt?
    case EqAny(_, _) => false
    case _ => true
  }

  lemma {:induction false} InlineBracket(left: seq<Tok>, join: Tok, right: seq<Tok>)
    requires join == AND || join == OR
    ensures Inline(E.Bracket(left, join, right)) == "(" + Inline(left) + Spell(join) + Inline(right) + ")"
    ensures Inline(E.Negated(left)) == "NOT (" + Inline(left) + ")"
  {
    hide Inline, Spell, InlineTok;
    InlineCat([LP], left);
    InlineCat([LP] + left, [join]);
    InlineCat([LP] + left + [join], right);
    InlineCat([LP] + left + [join] + right, [RP]);
    InlineCat([NOT], [LP]);
    InlineCat([NOT] + [LP], left);
    InlineCat([NOT] + [LP] + left, [RP]);
    InlineKeyword(LP);
    InlineKeyword(RP);
    InlineKeyword(NOT);
    InlineKeyword(join);
    KeywordTexts();
    assert "NOT " + "(" == "NOT (";
  }

  lemma {:induction false} KeywordTexts()
    ensures Spell(LP) == "(" && Spell(RP) == ")" && Spell(NOT) == "NOT "
  {
  }

  lemma {:induction false} InlineKeyword(t: Tok)
    requires !t.Ph?
    ensures Inline([t]) == Spell(t)
  {
    assert [t][1..] == [] && Spell(t) + "" == Spell(t);
  }

  /** A negation keeps its literal text exactly when no `$` in its operand is taken for a placeholder. */
  lemma {:induction false} InlineNotIff(d: Dialect, e: E.Expr, off: nat)
    requires e.Not? && AllShown(E.ExprParams(e.inner))
    ensures Inline(C.CondToks(d, ExprToCond(e), off)) == Inline(E.ExprToks(d, e, off)) <==> InlinableExpr(e.inner)
  {
    hide Inline, InlinableExpr, ExprLiteral, E.ExprParams, Shown;
    ExprLiteralIff(e.inner);
    ExprInline(d, e.inner, off);
    InlineBracket(E.ExprToks(d, e.inner, off), AND, []);
    InlineOne("NOT (" + ExprLiteral(e.inner) + ")");
    SameInside(ExprLiteral(e.inner), Inline(E.ExprToks(Postgres, e.inner, 1)));
  }

  lemma {:induction false} SameInside(a: string, b: string)
    ensures "NOT (" + a + ")" == "NOT (" + b + ")" <==> a == b
  {
    if "NOT (" + a + ")" == "NOT (" + b + ")" {
      assert a == ("NOT (" + a + ")")[5..5 + |a|] && b == ("NOT (" + b + ")")[5..5 + |b|];
    }
  }

  /** So does a CASE. */
  lemma {:induction false} InlineCaseIff(d: Dialect, e: E.Expr, off: nat)
    requires e.Case? && AllShown(E.ExprParams(e))
    ensures Inline(C.CondToks(d, ExprToCond(e), off)) == Inline(E.ExprToks(d, e, off)) <==> InlinableExpr(e)
  {
    hide Inline, InlinableExpr, ExprLiteral, E.ExprToks, E.ExprParams, Shown;
    ExprLiteralIff(e);
    ExprInline(d, e, off);
    InlineOne(ExprLiteral(e));
  }

  lemma {:induction false} InlineAgg(d: Dialect, e: E.Expr, off: nat)
    requires e.AggCmp?
    ensures Inline(C.CondToks(d, ExprToCond(e), off)) == Inline(E.ExprToks(d, e, off))
  {
    hide Inline, InlineTok;
    var op, slot := " " + e.rel + " ", Ph(Number(d, off), e.val);
    InlineCat([Frag(e.agg)] + [Frag(op)], [slot]);
    InlineCat([Frag(e.agg)], [Frag(op)]);
    InlineOne(e.agg);
    InlineOne(op);
    InlineSlot(slot);
    InlineOne(e.agg + " " + e.rel + " " + ToSqlLiteral(e.val));
  }

  lemma {:induction false} InlineSlot(slot: Tok)
    requires slot.Ph?
    ensures Inline([slot]) == ToSqlLiteral(slot.v)
  {
    assert [slot][1..] == [] && ToSqlLiteral(slot.v) + "" == ToSqlLiteral(slot.v);
  }

  lemma {:induction false} ShownParts(e: E.Expr)
    requires AllShown(E.ExprParams(e))
    ensures e.And? || e.Or? ==> AllShown(E.ExprParams(e.l)) && AllShown(E.ExprParams(e.r))
    ensures e.Not? ==> AllShown(E.ExprParams(e.inner))
  {
    hide Shown;
    if e.And? || e.Or? {
      var a, b := E.ExprParams(e.l), E.ExprParams(e.r);
      assert E.ExprParams(e) == a + b;
      assert forall i :: 0 <= i < |a| ==> (a + b)[i] == a[i];
      assert forall i :: 0 <= i < |b| ==> (a + b)[|a| + i] == b[i];
    }
  }

  /** With its values inlined, the condition is the very text of the expression, literal fallbacks included. */
  lemma {:induction false} CondKeepsLiteral(d: Dialect, e: E.Expr, off: nat)
    requires Faithful(e) && AllShown(E.ExprParams(e))
    ensures Inline(C.CondToks(d, ExprToCond(e), off)) == Inline(E.ExprToks(d, e, off))
  {
    hide C.CondToks, C.CondParams, E.ExprToks, E.ExprParams, ExprToCond, E.Bracket, Inline, Spell, Shown;
    ShownParts(e);
    if e.And? || e.Or? {
      var op, off' := if e.And? then JoinAnd else JoinOr, off + |E.ExprParams(e.l)|;
      var l, r := ExprToCond(e.l), ExprToCond(e.r);
      var offC := off + |C.CondParams(l)|;
      CondKeepsLiteral(d, e.l, off);
      CondKeepsLiteral(d, e.r, off');
      PairIs(d, e, off);
      PairToks(d, op, l, r, off);
      InlineBracket(C.CondToks(d, l, off), JoinTok(op), C.CondToks(d, r, offC));
      InlineBracket(E.ExprToks(d, e.l, off), JoinTok(op), E.ExprToks(d, e.r, off'));
      C.CondErase(d, d, r, offC, off');
      EraseInline(C.CondToks(d, r, offC), C.CondToks(d, r, off'));
    } else if e.Not? {
      InlineNotIff(d, e, off);
    } else if e.Case? {
      InlineCaseIff(d, e, off);
    } else if e.AggCmp? {
      InlineAgg(d, e, off);
    } else {
      LeafAlike(d, e, off);
    }
  }

  /** No IN list is empty, every LIKE pattern is text, and there is no `= ANY`. */
  predicate Straight(e: E.Expr) {
    match e
    case And(l, r) => Straight(l) && Straight(r)
    case Or(l, r) => Straight(l) && Straight(r)
    case InList(_, _, vs) => vs != []
    case Match(_, _, v) => v.Txt?
    case EqAny(_, _) => false
    case _ => true
  }

  /** A fallback whose operand is misread leaves a trace in the text of the whole. */
  lemma {:induction false} CondClashes(d: Dialect, e: E.Expr, off: nat)
    requires Straight(e) && !Faithful(e) && AllShown(E.ExprParams(e))
    ensures Clash(Inline(E.ExprToks(d, e, off)), Inline(C.CondToks(d, ExprToCond(e), off)))
    decreases e, 1
  {
    hide C.CondToks, C.CondParams, E.ExprToks, E.ExprParams, ExprToCond, E.Bracket, Inline, Spell, Shown, Clash,
         InlinableExpr;
    ShownParts(e);
    if e.And? || e.Or? {
      PairClashes(d, e, off);
    } else if e.Not? {
      NotClashes(d, e, off);
    } else {
      CaseClashes(d, e, off);
    }
  }

  lemma {:induction false} PairClashes(d: Dialect, e: E.Expr, off: nat)
    requires e.And? || e.Or?
    requires Straight(e) && !Faithful(e) && AllShown(E.ExprParams(e.l)) && AllShown(E.ExprParams(e.r))
    ensures Clash(Inline(E.ExprToks(d, e, off)), Inline(C.CondToks(d, ExprToCond(e), off)))
    decreases e, 0
  {
    hide C.CondToks, C.CondParams, E.ExprToks, E.ExprParams, ExprToCond, E.Bracket, Inline, Spell, Shown, Clash,
         InlinableExpr;
    var op, off' := if e.And? then JoinAnd else JoinOr, off + |E.ExprParams(e.l)|;
    var l, r := ExprToCond(e.l), ExprToCond(e.r);
    var offC := off + |C.CondParams(l)|;
    var join := Spell(JoinTok(op));
    var le, re := Inline(E.ExprToks(d, e.l, off)), Inline(E.ExprToks(d, e.r, off'));
    var lc, rc := Inline(C.CondToks(d, l, off)), Inline(C.CondToks(d, r, off'));
    PairIs(d, e, off);
    PairToks(d, op, l, r, off);
    InlineBracket(C.CondToks(d, l, off), JoinTok(op), C.CondToks(d, r, offC));
    InlineBracket(E.ExprToks(d, e.l, off), JoinTok(op), E.ExprToks(d, e.r, off'));
    C.CondErase(d, d, r, offC, off');
    EraseInline(C.CondToks(d, r, offC), C.CondToks(d, r, off'));
    if !Faithful(e.l) {
      CondClashes(d, e.l, off);
      ClashInside("(", le, lc, join + re + ")", join + rc + ")");
      assert "(" + le + (join + re + ")") == "(" + le + join + re + ")";
      assert "(" + lc + (join + rc + ")") == "(" + lc + join + rc + ")";
    } else {
      CondKeepsLiteral(d, e.l, off);
      CondClashes(d, e.r, off');
      ClashInside("(" + le + join, re, rc, ")", ")");
    }
  }

  lemma {:induction false} NotClashes(d: Dialect, e: E.Expr, off: nat)
    requires e.Not? && !InlinableExpr(e.inner) && AllShown(E.ExprParams(e.inner))
    ensures Clash(Inline(E.ExprToks(d, e, off)), Inline(C.CondToks(d, ExprToCond(e), off)))
  {
    hide Inline, InlinableExpr, ExprLiteral, E.ExprParams, Shown, Clash;
    ExprLiteralIff(e.inner);
    ExprInline(d, e.inner, off);
    InlineBracket(E.ExprToks(d, e.inner, off), AND, []);
    InlineOne("NOT (" + ExprLiteral(e.inner) + ")");
    ClashInside("NOT (", Inline(E.ExprToks(Postgres, e.inner, 1)), ExprLiteral(e.inner), ")", ")");
  }

  lemma {:induction false} CaseClashes(d: Dialect, e: E.Expr, off: nat)
    requires e.Case? && !InlinableExpr(e) && AllShown(E.ExprParams(e))
    ensures Clash(Inline(E.ExprToks(d, e, off)), Inline(C.CondToks(d, ExprToCond(e), off)))
  {
    hide Inline, InlinableExpr, ExprLiteral, E.ExprToks, E.ExprParams, Shown, Clash;
    ExprLiteralIff(e);
    ExprInline(d, e, off);
    InlineOne(ExprLiteral(e));
  }

  /**
   * With its values inlined, the condition is the text of the expression exactly when in no operand of a literal
   * fallback a `$` is taken for a placeholder.
   */
  lemma {:induction false} CondKeepsLiteralIff(d: Dialect, e: E.Expr, off: nat)
    requires Straight(e) && AllShown(E.ExprParams(e))
    ensures Inline(C.CondToks(d, ExprToCond(e), off)) == Inline(E.ExprToks(d, e, off)) <==> Faithful(e)
  {
    hide *;
    if Faithful(e) {
      CondKeepsLiteral(d, e, off);
    } else {
      CondClashes(d, e, off);
      ClashDiffers(Inline(E.ExprToks(d, e, off)), Inline(C.CondToks(d, ExprToCond(e), off)));
    }
  }
}
