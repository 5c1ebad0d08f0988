/** Exactly which expressions come back, text and values, from a turn into a condition. */
module RoundTrips {
  import opened Values
  import opened Tokens
  import opened Leaves
  import opened Literals
  import opened Bridge
  import opened BridgeBack
  import C = Conditions
  import E = Exprs

  function Back(e: E.Expr): E.Expr {
    CondToExpr(ExprToCond(e))
  }

  /** No sub-expression is `= ANY`. */
  predicate NoAny(e: E.Expr) {
    match e
    case And(l, r) => NoAny(l) && NoAny(r)
    case Or(l, r) => NoAny(l) && NoAny(r)
    case EqAny(_, _) => false
    case _ => true
  }

  /**
   * Every LIKE pattern is text, negations and CASEs bind nothing, and there is neither an aggregate comparison nor
   * `= ANY`. Unlike the condition, the expression that comes back renders an empty IN list as the original did.
   */
  predicate ComesBack(e: E.Expr) {
    match e
    case And(l, r) => ComesBack(l) && ComesBack(r)
    case Or(l, r) => ComesBack(l) && ComesBack(r)
    case Match(_, _, v) => v.Txt?
    case Not(inner) => E.ExprParams(inner) == []
    case Case(bs, els) => E.ExprParams(e) == []
    case AggCmp(_, _, _) => false
    case EqAny(_, _) => false
    case _ => true
  }

  lemma {:induction false} ComesBackIs(e: E.Expr)
    ensures ComesBack(e) <==> KeepsParams(e) && NoAny(e) && TextPatterns(e)
  {
    hide E.ExprParams;
    if e.And? || e.Or? {
      ComesBackIs(e.l);
      ComesBackIs(e.r);
    }
  }

  lemma {:induction false} BackPair(d: Dialect, e: E.Expr, off: nat)
    requires e.And? || e.Or?
    ensures E.ExprToks(d, Back(e), off)
         == E.Bracket(E.ExprToks(d, Back(e.l), off), JoinTok(if e.And? then JoinAnd else JoinOr),
                      E.ExprToks(d, Back(e.r), off + |E.ExprParams(Back(e.l))|))
    ensures E.ExprParams(Back(e)) == E.ExprParams(Back(e.l)) + E.ExprParams(Back(e.r))
  {
    hide E.ExprToks, E.ExprParams, ExprToCond, CondToExpr, E.Bracket;
    PairIs(d, e, off);
    PairBack(if e.And? then JoinAnd else JoinOr, ExprToCond(e.l), ExprToCond(e.r));
    PairIs(d, Back(e), off);
  }

  // ----- Values: what the condition binds, its way back binds -----

  lemma {:induction false} BackParams(e: E.Expr)
    ensures E.ExprParams(Back(e)) == C.CondParams(ExprToCond(e))
  {
    hide E.ExprToks, E.ExprParams, C.CondToks, C.CondParams, ExprToCond, Back;
    if e.And? || e.Or? {
      BackParams(e.l);
      BackParams(e.r);
      BackPair(Postgres, e, 1);
      PairIs(Postgres, e, 1);
      PairToks(Postgres, if e.And? then JoinAnd else JoinOr, ExprToCond(e.l), ExprToCond(e.r), 1);
    } else {
      LeafBackParams(e);
    }
  }

  lemma {:induction false} LeafBackParams(e: E.Expr)
    requires !e.And? && !e.Or?
    ensures E.ExprParams(Back(e)) == C.CondParams(ExprToCond(e))
  {
    hide ExprLiteral, CondLiteral, Pairs;
  }

  // ----- Text -----

  lemma {:induction false} LeafBackText(d: Dialect, e: E.Expr, off: nat)
    requires KeepsParams(e) && NoAny(e) && !e.And? && !e.Or?
    ensures Flatten(E.ExprToks(d, Back(e), off)) == Flatten(E.ExprToks(d, e, off))
  {
    hide C.CondToks, E.ExprToks, Flatten, Pairs, ExprLiteral;
    if e.Match? {
      MatchBack(d, e, off);
    } else if e.Not? || e.Case? {
      FallbackText(d, e, off);
    } else {
      LeafComesBack(e);
      RaisedRendersAlike(d, e, off);
    }
  }

  lemma {:induction false} MatchBack(d: Dialect, e: E.Expr, off: nat)
    requires e.Match?
    ensures Flatten(E.ExprToks(d, Back(e), off)) == Flatten(E.ExprToks(d, e, off))
  {
    hide Flatten, BinaryToks;
    MatchText(d, e, off);
    assert E.ExprToks(d, Back(e), off) == C.CondToks(d, ExprToCond(e), off);
  }

  lemma {:induction false} FallbackText(d: Dialect, e: E.Expr, off: nat)
    requires KeepsParams(e) && (e.Not? || e.Case?)
    ensures Flatten(E.ExprToks(d, Back(e), off)) == Flatten(E.ExprToks(d, e, off))
  {
    hide Flatten, ExprLiteral;
    LeafText(d, e, off);
    assert E.ExprToks(d, Back(e), off) == C.CondToks(d, ExprToCond(e), off);
  }

  lemma {:induction false} BackText(d: Dialect, e: E.Expr, off: nat)
    requires KeepsParams(e) && NoAny(e)
    ensures Flatten(E.ExprToks(d, Back(e), off)) == Flatten(E.ExprToks(d, e, off))
  {
    hide E.ExprToks, E.ExprParams, E.Bracket, Flatten, Spell, Back, C.CondParams, ExprToCond;
    if e.And? || e.Or? {
      var join, off' := JoinTok(if e.And? then JoinAnd else JoinOr), off + |E.ExprParams(e.l)|;
      BackText(d, e.l, off);
      BackText(d, e.r, off');
      BackParams(e.l);
      ParamCount(e.l);
      PairIs(d, e, off);
      BackPair(d, e, off);
      BracketText(E.ExprToks(d, e.l, off), join, E.ExprToks(d, e.r, off'));
      BracketText(E.ExprToks(d, Back(e.l), off), join, E.ExprToks(d, Back(e.r), off'));
    } else {
      LeafBackText(d, e, off);
    }
  }

  /** `= ANY` on an empty list comes back lighter. */
  lemma {:induction false} AnyBack(d: Dialect, e: E.Expr, off: nat)
    requires e.EqAny? && e.vals == []
    ensures Weight(Flatten(E.ExprToks(d, Back(e), off))) < Weight(Flatten(E.ExprToks(d, e, off)))
  {
    hide Weight, Flatten;
    EmptyAnyLighter(d, e, off);
    assert E.ExprToks(d, Back(e), off) == C.CondToks(d, ExprToCond(e), off);
  }

  lemma {:induction false} BackWeight(d: Dialect, e: E.Expr, off: nat)
    requires KeepsParams(e)
    ensures var b, t := Weight(Flatten(E.ExprToks(d, Back(e), off))), Weight(Flatten(E.ExprToks(d, e, off)));
            b <= t && (b == t <==> NoAny(e))
  {
    hide E.ExprToks, E.ExprParams, E.Bracket, Flatten, Spell, Weight, Back, C.CondParams, ExprToCond;
    if NoAny(e) {
      BackText(d, e, off);
    } else if e.And? || e.Or? {
      var join, off' := JoinTok(if e.And? then JoinAnd else JoinOr), off + |E.ExprParams(e.l)|;
      var l, r := E.ExprToks(d, e.l, off), E.ExprToks(d, e.r, off');
      var bl, br := E.ExprToks(d, Back(e.l), off), E.ExprToks(d, Back(e.r), off');
      BackWeight(d, e.l, off);
      BackWeight(d, e.r, off');
      BackParams(e.l);
      ParamCount(e.l);
      PairIs(d, e, off);
      BackPair(d, e, off);
      BracketText(l, join, r);
      BracketText(bl, join, br);
      BracketWeight(Flatten(l), Spell(join), Flatten(r));
      BracketWeight(Flatten(bl), Spell(join), Flatten(br));
    } else {
      AnyBack(d, e, off);
    }
  }

  /**
   * For every expression: turned into a condition and back, it has its text and values again exactly when every LIKE
   * pattern is text, negations and CASEs bind nothing, and there is neither an aggregate comparison nor `= ANY`.
   */
  lemma {:induction false} RoundTripIff(d: Dialect, e: E.Expr, off: nat)
    ensures && Flatten(E.ExprToks(d, Back(e), off)) == Flatten(E.ExprToks(d, e, off))
            && E.ExprParams(Back(e)) == E.ExprParams(e)
       <==> ComesBack(e)
  {
    hide E.ExprToks, E.ExprParams, C.CondParams, ExprToCond, Flatten, Weight, Back;
    ComesBackIs(e);
    BackParams(e);
    ParamCount(e);
    if KeepsParams(e) {
      ParamsIff(e);
      BackWeight(d, e, off);
      if NoAny(e) {
        BackText(d, e, off);
      }
    }
  }
}
