/** An Active Record query handed over to the typed builder. */
module IntoSelect {
  import opened Text
  import opened Values
  import opened Tokens
  import opened Leaves
  import opened Search
  import opened Meaning
  import opened ExprMeaning
  import opened BridgeBack
  import opened Selects
  import opened SelectMeaning
  import C = Conditions
  import E = Exprs

  /** The entries joined by one operator, as expressions and in order. */
  function Side(conds: seq<C.Item>, op: JoinOp): seq<E.Expr> {
    if conds == [] then []
    else (if conds[0].op == op then [CondToExpr(conds[0].cond)] else []) + Side(conds[1..], op)
  }

  lemma {:induction false} SideSnoc(conds: seq<C.Item>, k: nat, op: JoinOp)
    requires k < |conds|
    ensures Side(conds[..k + 1], op)
         == Side(conds[..k], op) + if conds[k].op == op then [CondToExpr(conds[k].cond)] else []
  {
    SideCat(conds[..k], [conds[k]], op);
    assert conds[..k + 1] == conds[..k] + [conds[k]];
    assert [conds[k]][1..] == [];
  }

  lemma {:induction false} NoSide(op: JoinOp)
    ensures Side([], op) == []
  {
  }

  lemma {:induction false} SideIs(conds: seq<C.Item>, op: JoinOp)
    requires conds != []
    ensures Side(conds, op)
         == if conds[0].op == op then [CondToExpr(conds[0].cond)] + Side(conds[1..], op) else Side(conds[1..], op)
  {
    hide CondToExpr;
  }

  lemma {:induction false} SideCat(a: seq<C.Item>, b: seq<C.Item>, op: JoinOp)
    ensures Side(a + b, op) == Side(a, op) + Side(b, op)
  {
    hide CondToExpr, Side;
    if a == [] {
      assert a + b == b;
      NoSide(op);
    } else {
      SideCat(a[1..], b, op);
      assert (a + b)[1..] == a[1..] + b;
      SideIs(a, op);
      SideIs(a + b, op);
    }
  }

  /** An order clause of the query; it says nothing about where nulls go. */
  datatype OrderClause = OrderClause(col: string, descending: bool)

  function Carried(clauses: seq<OrderClause>): seq<Order> {
    seq(|clauses|, i requires 0 <= i < |clauses| => Order(clauses[i].col, clauses[i].descending, DefaultNulls))
  }

  /** The ORDER BY clause that the query itself writes. */
  function QueryOrder(clauses: seq<OrderClause>): string {
    if clauses == [] then ""
    else
      " ORDER BY " + Join(seq(|clauses|, i requires 0 <= i < |clauses| =>
                                clauses[i].col + " " + if clauses[i].descending then "DESC" else "ASC"), ", ")
  }

  /** The typed builder orders as the query does, word for word. */
  lemma {:induction false} OrdersAlike(clauses: seq<OrderClause>)
    ensures OrdersText(Carried(clauses)) == QueryOrder(clauses)
  {
    hide Join;
    var texts := seq(|clauses|, i requires 0 <= i < |clauses| =>
                       clauses[i].col + " " + if clauses[i].descending then "DESC" else "ASC");
    var carried := OrderTexts(Carried(clauses));
    forall i | 0 <= i < |clauses|
      ensures carried[i] == texts[i]
    {
      assert texts[i] + "" == texts[i];
    }
    assert carried == texts;
  }

  method IntoSelect(table: string, conds: seq<C.Item>, clauses: seq<OrderClause>, limit: Option<nat>, offset: Option<nat>)
    returns (sel: SelectBuilder)
    ensures fresh(sel)
    ensures sel.Snapshot()
         == Select(FromTable(table), [], Side(conds, JoinAnd), Side(conds, JoinOr), [], [], Carried(clauses), limit, offset, None, [])
  {
    hide CondToExpr;
    sel := new SelectBuilder(table);
    ghost var start := sel.Snapshot();
    for k := 0 to |conds|
      invariant fresh(sel)
      invariant sel.Snapshot() == start.(wheres := Side(conds[..k], JoinAnd), orWheres := Side(conds[..k], JoinOr))
    {
      SideSnoc(conds, k, JoinAnd);
      SideSnoc(conds, k, JoinOr);
      var expr := CondToExpr(conds[k].cond);
      match conds[k].op
      case JoinAnd => sel.Where(expr);
      case JoinOr => sel.OrWhere(expr);
    }
    assert conds[..|conds|] == conds;
    ghost var filtered := sel.Snapshot();
    for k := 0 to |clauses|
      invariant fresh(sel) && sel.Snapshot() == filtered.(orders := Carried(clauses[..k]))
    {
      sel.OrderBy(Order(clauses[k].col, clauses[k].descending, DefaultNulls));
      assert Carried(clauses[..k + 1]) == Carried(clauses[..k]) + [Order(clauses[k].col, clauses[k].descending, DefaultNulls)];
    }
    assert clauses[..|clauses|] == clauses;
    if limit.Some? {
      sel.Limit(limit.value);
    }
    if offset.Some? {
      sel.Offset(offset.value);
    }
  }

  // ----- Meaning -----

  lemma {:induction false} SideVals(conds: seq<C.Item>, row: Row)
    ensures Vals(Side(conds, JoinAnd), JoinAnd, row) == Ands(PairVals(Pairs(conds), row))
    ensures Vals(Side(conds, JoinOr), JoinOr, row) == Ors(PairVals(Pairs(conds), row))
  {
    hide CondToExpr, ExprEval, Side;
    if conds == [] {
      NoSide(JoinAnd);
      NoSide(JoinOr);
    } else {
      SideVals(conds[1..], row);
      assert PairVals(Pairs(conds), row)[1..] == PairVals(Pairs(conds[1..]), row);
      var x := CondToExpr(conds[0].cond);
      SideIs(conds, JoinAnd);
      SideIs(conds, JoinOr);
      assert ([x] + Side(conds[1..], JoinAnd))[1..] == Side(conds[1..], JoinAnd);
      assert ([x] + Side(conds[1..], JoinOr))[1..] == Side(conds[1..], JoinOr);
    }
  }

  lemma {:induction false} SidesCover(conds: seq<C.Item>)
    requires conds != []
    ensures Side(conds, JoinAnd) != [] || Side(conds, JoinOr) != []
  {
    hide CondToExpr;
  }

  /** The clause the query itself would have written means the OR of its maximal AND-runs. */
  lemma {:induction false} QueryMeans(conds: seq<C.Item>, off: nat, row: Row)
    requires conds != [] && KeptItems(conds) && (Textual(row) || NativeItems(conds))
    ensures var t := Read(C.ItemsToks(Postgres, conds, off));
            t.Some? && Eval(t.value, row) == OrOfRuns(PairVals(Pairs(conds), row))
  {
    hide *;
    KeptItemsSolid(conds);
    WhereMeans(conds, off, row);
    ItemsKept(conds, row);
  }

  /** The clause of the builder means all of the AND-joined entries, or any of the OR-joined ones. */
  lemma {:induction false} BuilderMeans(conds: seq<C.Item>, off: nat, row: Row)
    requires conds != [] && !Blank(Side(conds, JoinAnd), Side(conds, JoinOr), off)
    ensures var t := Read(WherePredicate(Side(conds, JoinAnd), Side(conds, JoinOr), off));
            && t.Some?
            && Eval(t.value, row) == AllOrAny(Ands(PairVals(Pairs(conds), row)), Ors(PairVals(Pairs(conds), row)))
  {
    hide Read, Eval, Blank, WherePredicate, Ands, Ors, Side, Pairs, PairVals, Vals, AllOrAny;
    SidesCover(conds);
    WhereIsAllOrAny(Side(conds, JoinAnd), Side(conds, JoinOr), off, row);
    SideVals(conds, row);
  }

  lemma {:induction false} PairOps(conds: seq<C.Item>, row: Row)
    ensures Ops(PairVals(Pairs(conds), row)) == ItemOps(conds)
  {
    hide CondToExpr, ExprEval;
    forall i | 0 <= i < |conds|
      ensures Pairs(conds)[i].op == conds[i].op
    {
      PairsAt(conds, i);
    }
  }

  /**
   * The builder's filter and the query's own filter, both read with SQL precedence, agree in three-valued logic on
   * every row, for every tree of conditions in which each list has its ANDs first; a row must decide by text if a
   * condition becomes raw text.
   */
  lemma {:induction false} IntoSelectKeepsMeaning(conds: seq<C.Item>, off: nat, off': nat, row: Row)
    requires conds != [] && KeptItems(conds) && AndsFirst(ItemOps(conds)) && (Textual(row) || NativeItems(conds))
    requires !Blank(Side(conds, JoinAnd), Side(conds, JoinOr), off)
    ensures var sel, query := Read(WherePredicate(Side(conds, JoinAnd), Side(conds, JoinOr), off)),
                              Read(C.ItemsToks(Postgres, conds, off'));
            sel.Some? && query.Some? && Eval(sel.value, row) == Eval(query.value, row)
  {
    hide Read, Eval, Blank, WherePredicate, Ands, Ors, Side, Pairs, AllOrAny, OrOfRuns, C.ItemsToks, KeptItems;
    BuilderMeans(conds, off, row);
    QueryMeans(conds, off', row);
    PairOps(conds, row);
    SplitAgrees(PairVals(Pairs(conds), row));
  }

  // ----- Exactly when -----

  lemma {:induction false} NamedSideText(ops: seq<JoinOp>, k: nat, off: nat)
    ensures var es := Side(Named(ops, k), JoinAnd); es == [] || Flatten(Chain(Postgres, es, AND, off)) != ""
    decreases ops
  {
    if ops != [] {
      if ops[0].JoinAnd? {
        NamedFirst(ops, k, off);
      } else {
        assert Named(ops, k)[1..] == Named(ops[1..], k + 1);
        SideIs(Named(ops, k), JoinAnd);
        NamedSideText(ops[1..], k + 1, off);
      }
    }
  }

  lemma {:induction false} NamedFirst(ops: seq<JoinOp>, k: nat, off: nat)
    requires ops != [] && ops[0].JoinAnd?
    ensures Flatten(Chain(Postgres, Side(Named(ops, k), JoinAnd), AND, off)) != ""
  {
    var es := Side(Named(ops, k), JoinAnd);
    assert es[0] == E.Raw(Decimal(k));
    hide Decimal, Named, Side;
    var ts := Chain(Postgres, es, AND, off);
    assert ts[0] == Frag(Decimal(k));
  }

  lemma {:induction false} NamedBoth(ops: seq<JoinOp>, vals: seq<Tri>, off: nat)
    requires ops != [] && |vals| == |ops|
    ensures var conds := Named(ops, 0);
            var sel, query := Read(WherePredicate(Side(conds, JoinAnd), Side(conds, JoinOr), off)),
                              Read(C.ItemsToks(Postgres, conds, off));
            && sel.Some? && query.Some?
            && Eval(sel.value, RowOf(vals)) == AllOrAny(Ands(Zip(ops, vals)), Ors(Zip(ops, vals)))
            && Eval(query.value, RowOf(vals)) == OrOfRuns(Zip(ops, vals))
  {
    hide Read, Eval, WherePredicate, Ands, Ors, Side, Pairs, AllOrAny, OrOfRuns, C.ItemsToks, KeptItems, Named, RowOf,
         PairVals, Zip, Chain;
    NamedShape(ops, 0);
    NamedSideText(ops, 0, off);
    NamedVals(ops, vals);
    ItemsKept(Named(ops, 0), RowOf(vals));
    BuilderMeans(Named(ops, 0), off, RowOf(vals));
    QueryMeans(Named(ops, 0), off, RowOf(vals));
  }

  /** For a list of distinct atoms joined by `ops`, the two filters agree on every row. */
  ghost predicate FiltersAgree(ops: seq<JoinOp>, off: nat) {
    forall vals: seq<Tri> :: |vals| == |ops| ==>
      var conds := Named(ops, 0);
      var sel, query := Read(WherePredicate(Side(conds, JoinAnd), Side(conds, JoinOr), off)),
                        Read(C.ItemsToks(Postgres, conds, off));
      sel.Some? && query.Some? && Eval(sel.value, RowOf(vals)) == Eval(query.value, RowOf(vals))
  }

  /** They do exactly when all AND-joined entries, the first one counted by its own operator, come before the OR-joined ones. */
  lemma {:induction false} IntoSelectIff(ops: seq<JoinOp>, off: nat)
    requires ops != []
    ensures FiltersAgree(ops, off) <==> AndsFirst(ops)
  {
    hide Read, Eval, WherePredicate, Ands, Ors, Side, AllOrAny, OrOfRuns, C.ItemsToks, Named, RowOf, Zip, AndsFirst;
    forall vals: seq<Tri> | |vals| == |ops|
      ensures var conds := Named(ops, 0);
              var sel, query := Read(WherePredicate(Side(conds, JoinAnd), Side(conds, JoinOr), off)),
                                Read(C.ItemsToks(Postgres, conds, off));
              && sel.Some? && query.Some? && Zip(ops, vals) != []
              && (Eval(sel.value, RowOf(vals)) == Eval(query.value, RowOf(vals))
                  <==> AllOrAny(Ands(Zip(ops, vals)), Ors(Zip(ops, vals))) == OrOfRuns(Zip(ops, vals)))
    {
      NamedBoth(ops, vals, off);
      ZipHead(ops, vals);
    }
    SplitIsPrecedenceIff(ops);
  }
}
