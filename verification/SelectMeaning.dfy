/** What the WHERE clause of a `SelectBuilder` means, and what becomes of a query's conditions in one. */
module SelectMeaning {
  import opened Values
  import opened Tokens
  import opened Leaves
  import opened Search
  import opened ExprMeaning
  import opened Selects
  import E = Exprs

  // ----- Reading the predicate back -----

  function Vals(es: seq<E.Expr>, op: JoinOp, row: Row): (js: seq<Joined>)
    ensures |js| == |es|
  {
    if es == [] then [] else [Joined(op, ExprEval(es[0], row))] + Vals(es[1..], op, row)
  }

  function ChainEntries(es: seq<E.Expr>, op: JoinOp, off: nat, row: Row): seq<Entry> {
    if es == [] then []
    else
      [Entry(op, E.ExprToks(Postgres, es[0], off), Some(ExprEval(es[0], row)))]
      + ChainEntries(es[1..], op, off + |E.ExprParams(es[0])|, row)
  }

  lemma {:induction false} ChainSpelled(es: seq<E.Expr>, op: JoinOp, off: nat, row: Row)
    ensures Tail(ChainEntries(es, op, off, row)) == ChainTail(Postgres, es, JoinTok(op), off)
    ensures List(ChainEntries(es, op, off, row)) == Chain(Postgres, es, JoinTok(op), off)
  {
    hide E.ExprToks, E.ExprParams, ExprEval, JoinTok;
    if es != [] {
      ChainSpelled(es[1..], op, off + |E.ExprParams(es[0])|, row);
      assert ChainEntries(es, op, off, row)[1..] == ChainEntries(es[1..], op, off + |E.ExprParams(es[0])|, row);
    }
  }

  lemma {:induction false} ChainReads(es: seq<E.Expr>, op: JoinOp, off: nat, row: Row)
    ensures AllRead(ChainEntries(es, op, off, row), row) && AllSome(ChainEntries(es, op, off, row))
    ensures Joins(ChainEntries(es, op, off, row)) == Vals(es, op, row)
  {
    hide E.ExprToks, E.ExprParams, ExprEval, Reads;
    if es != [] {
      var off' := off + |E.ExprParams(es[0])|;
      ReadsExpr(Postgres, es[0], off, row);
      ChainReads(es[1..], op, off', row);
      var all, rest := ChainEntries(es, op, off, row), ChainEntries(es[1..], op, off', row);
      assert all[0].ts == E.ExprToks(Postgres, es[0], off);
      assert forall i :: 0 < i < |all| ==> all[i] == rest[i - 1];
      assert Joins(all)[1..] == Joins(rest);
    }
  }

  lemma {:induction false} ValsJoined(es: seq<E.Expr>, op: JoinOp, row: Row)
    ensures forall i :: 0 <= i < |es| ==> Vals(es, op, row)[i].op == op
  {
    if es != [] {
      ValsJoined(es[1..], op, row);
    }
  }

  /** What a chain joined by one operator means: all of it, or any of it. */
  function ChainMeaning(es: seq<E.Expr>, op: JoinOp, row: Row): Tri {
    if op.JoinAnd? then AllOf(Vals(es, op, row)) else AnyOf(Vals(es, op, row))
  }

  lemma {:induction false} ChainMeans(es: seq<E.Expr>, op: JoinOp, row: Row)
    requires es != []
    ensures OrOfRuns(Vals(es, op, row)) == ChainMeaning(es, op, row)
  {
    var js := Vals(es, op, row);
    ValsJoined(es, op, row);
    if op.JoinAnd? {
      OneRun(js);
    } else {
      FoldOrs(True, js);
    }
  }

  lemma {:induction false} ReadChain(es: seq<E.Expr>, op: JoinOp, off: nat, row: Row)
    requires es != []
    ensures var t := Read(Chain(Postgres, es, JoinTok(op), off)); t.Some? && Eval(t.value, row) == ChainMeaning(es, op, row)
  {
    hide Chain, ChainEntries, Vals, List, AllRead, ChainMeaning, ReadSearch, OrOfRuns;
    var entries := ChainEntries(es, op, off, row);
    ChainSpelled(es, op, off, row);
    ChainReads(es, op, off, row);
    ChainMeans(es, op, row);
    NonEmptyChain(es, op, off, row);
    ReadList(entries, [], row);
    assert List(entries) + [] == List(entries);
  }

  lemma {:induction false} NonEmptyChain(es: seq<E.Expr>, op: JoinOp, off: nat, row: Row)
    requires es != []
    ensures ChainEntries(es, op, off, row) != []
  {
  }

  lemma {:induction false} ReadsChainGroup(es: seq<E.Expr>, op: JoinOp, off: nat, row: Row)
    requires es != []
    ensures Reads([LP] + Chain(Postgres, es, JoinTok(op), off) + [RP], Some(ChainMeaning(es, op, row)), row)
  {
    hide Chain, ChainEntries, Vals, List, AllRead, ChainMeaning, OrOfRuns, Reads;
    var entries := ChainEntries(es, op, off, row);
    ChainSpelled(es, op, off, row);
    ChainReads(es, op, off, row);
    ChainMeans(es, op, row);
    NonEmptyChain(es, op, off, row);
    ReadGroup(entries, row);
  }

  lemma {:induction false} ReadBoth(a: seq<Tok>, va: Tri, o: seq<Tok>, vo: Tri, row: Row)
    requires Reads([LP] + a + [RP], Some(va), row) && Reads([LP] + o + [RP], Some(vo), row)
    ensures var t := Read([LP] + a + [RP] + [OR] + ([LP] + o + [RP])); t.Some? && Eval(t.value, row) == TOr(va, vo)
  {
    hide Reads, ReadSearch;
    var first, second := Entry(JoinAnd, [LP] + a + [RP], Some(va)), Entry(JoinOr, [LP] + o + [RP], Some(vo));
    var es := [first, second];
    assert es[1..] == [second] && es[1..][1..] == [];
    assert Tail([second]) == [OR] + ([LP] + o + [RP]) + Tail([]);
    assert List(es) + [] == [LP] + a + [RP] + [OR] + ([LP] + o + [RP]);
    ReadList(es, [], row);
    TwoRuns(va, vo);
    assert Joins(es) == [Joined(JoinAnd, va), Joined(JoinOr, vo)];
  }

  lemma {:induction false} TwoRuns(a: Tri, b: Tri)
    ensures OrOfRuns([Joined(JoinAnd, a), Joined(JoinOr, b)]) == TOr(a, b)
  {
    var js := [Joined(JoinAnd, a), Joined(JoinOr, b)];
    assert js[1..] == [Joined(JoinOr, b)] && AndRun(js[1..]) == 0;
    assert js[..1] == [Joined(JoinAnd, a)] && js[1..][..1] == [Joined(JoinOr, b)];
    assert AllOf([Joined(JoinAnd, a)]) == TAnd(a, AllOf([])) && AllOf([Joined(JoinOr, b)]) == TAnd(b, AllOf([]));
    assert OrOfRuns([Joined(JoinOr, b)]) == TOr(b, False) by {
      assert [Joined(JoinOr, b)][1..] == [];
    }
    TriLaws(a, b, True);
    TriLaws(b, a, True);
  }

  /** All of the `where_` expressions, or any of the `or_where` expressions. */
  function WhereMeaning(wheres: seq<E.Expr>, ors: seq<E.Expr>, row: Row): Tri {
    AllOrAny(Vals(wheres, JoinAnd, row), Vals(ors, JoinOr, row))
  }

  function WherePredicate(wheres: seq<E.Expr>, ors: seq<E.Expr>, off: nat): seq<Tok> {
    Predicate(Chain(Postgres, wheres, AND, off), Chain(Postgres, ors, OR, off + |ChainParams(wheres)|), ors != [])
  }

  /** An AND part that the renderer takes for missing although it is not. */
  predicate Blank(wheres: seq<E.Expr>, ors: seq<E.Expr>, off: nat) {
    wheres != [] && ors != [] && Flatten(Chain(Postgres, wheres, AND, off)) == ""
  }

  /**
   * A `SelectBuilder` filter means (all `where_`) OR (any `or_where`), whatever AND and OR there is inside the
   * expressions. Only an AND part without any text is dropped.
   */
  lemma {:induction false} WhereIsAllOrAny(wheres: seq<E.Expr>, ors: seq<E.Expr>, off: nat, row: Row)
    requires wheres != [] || ors != []
    ensures var t := Read(WherePredicate(wheres, ors, off));
            && t.Some?
            && Eval(t.value, row) == WhereMeaning(if Blank(wheres, ors, off) then [] else wheres, ors, row)
  {
    hide Chain, ChainParams, Reads, Read, Eval, Vals, Flatten, E.ExprToks;
    var off' := off + |ChainParams(wheres)|;
    NoVals(row);
    if ors == [] {
      ReadChain(wheres, JoinAnd, off, row);
    } else {
      NoChain(off);
      if wheres == [] || Blank(wheres, ors, off) {
        ReadChain(ors, JoinOr, off', row);
      } else {
        ReadsChainGroup(wheres, JoinAnd, off, row);
        ReadsChainGroup(ors, JoinOr, off', row);
        ReadBoth(Chain(Postgres, wheres, AND, off), ChainMeaning(wheres, JoinAnd, row),
                 Chain(Postgres, ors, OR, off'), ChainMeaning(ors, JoinOr, row), row);
      }
    }
  }

  lemma {:induction false} NoVals(row: Row)
    ensures Vals([], JoinAnd, row) == [] && Vals([], JoinOr, row) == []
  {
  }

  lemma {:induction false} NoChain(off: nat)
    ensures Chain(Postgres, [], AND, off) == [] && Flatten([]) == ""
  {
  }
}
