/** Rendered expressions are read back as the very trees they were built as. */
module ExprMeaning {
  import opened Values
  import opened Tokens
  import opened Leaves
  import opened Search
  import opened Exprs
  import M = Meaning

  /** AND, OR and NOT mean what SQL says; every other expression is atomic. */
  function ExprEval(e: Expr, row: Row): Tri {
    match e
    case And(l, r) => TAnd(ExprEval(l, row), ExprEval(r, row))
    case Or(l, r) => TOr(ExprEval(l, row), ExprEval(r, row))
    case Not(inner) => TNot(ExprEval(inner, row))
    case _ => row(Erase(ExprToks(Postgres, e, 1)))
  }

  /** The search-condition tree of an expression rendered at `off`. */
  function Shape(d: Dialect, e: Expr, off: nat): Tree {
    match e
    case And(l, r) => Conj(Shape(d, l, off), Shape(d, r, off + |ExprParams(l)|))
    case Or(l, r) => Disj(Shape(d, l, off), Shape(d, r, off + |ExprParams(l)|))
    case Not(inner) => Neg(Shape(d, inner, off))
    case _ => Atom(ExprToks(d, e, off))
  }

  predicate Atoms(ts: seq<Tok>) {
    forall t :: t in ts ==> AtomTok(t)
  }

  lemma {:induction false} AtomsCat(a: seq<Tok>, b: seq<Tok>)
    requires Atoms(a) && Atoms(b)
    ensures Atoms(a + b)
  {
  }

  lemma {:induction false} ListAtoms(d: Dialect, vs: seq<SqlValue>, off: nat)
    ensures Atoms(ListToks(d, vs, off))
  {
    if |vs| > 1 {
      ListAtoms(d, vs[1..], off + 1);
    }
  }

  lemma {:induction false} LeafAtoms(d: Dialect, e: Expr, off: nat)
    requires IsLeaf(e)
    ensures ExprToks(d, e, off) != [] && Atoms(ExprToks(d, e, off))
  {
    if e.InList? || e.EqAny? {
      ListAtoms(d, e.vals, off);
    }
  }

  lemma {:induction false} CaseAtoms(d: Dialect, bs: seq<Branch>, els: Option<SqlValue>, off: nat)
    ensures CaseToks(d, bs, els, off) != [] && Atoms(CaseToks(d, bs, els, off))
  {
    BranchAtoms(d, bs, off);
    hide BranchToks, BranchParams;
    AtomsCat([Frag("CASE")], BranchToks(d, bs, off));
    AtomsCat([Frag("CASE")] + BranchToks(d, bs, off), ElseToks(d, els, off + |BranchParams(bs)|));
  }

  lemma {:induction false} BranchAtoms(d: Dialect, bs: seq<Branch>, off: nat)
    ensures Atoms(BranchToks(d, bs, off))
    decreases bs
  {
    if bs != [] {
      hide ExprToks, ExprParams;
      BranchAtoms(d, bs[1..], off + |ExprParams(bs[0].cond)| + 1);
      assert Atoms(OneBranch(d, bs[0], off));
      AtomsCat(OneBranch(d, bs[0], off), BranchToks(d, bs[1..], off + |ExprParams(bs[0].cond)| + 1));
    }
  }

  // ----- Reading -----

  lemma {:induction false} ReadLone(ts: seq<Tok>, t: Tree, rest: seq<Tok>)
    requires ReadFactor(ts) == Got(t, rest) && Closes(rest)
    ensures ReadTerm(ts) == Got(t, rest) && ReadSearch(ts) == Got(t, rest)
  {
    assert AndTail(t, rest) == Got(t, rest);
    assert OrTail(t, rest) == Got(t, rest);
  }

  lemma {:induction false} ReadAnd(ts: seq<Tok>, l: Tree, right: seq<Tok>, r: Tree, rest: seq<Tok>)
    requires ReadFactor(ts) == Got(l, [AND] + right) && ReadFactor(right) == Got(r, rest) && Closes(rest)
    ensures ReadSearch(ts) == Got(Conj(l, r), rest)
  {
    assert ([AND] + right)[1..] == right;
    assert AndTail(Conj(l, r), rest) == Got(Conj(l, r), rest);
    assert AndTail(l, [AND] + right) == Got(Conj(l, r), rest);
    assert ReadTerm(ts) == Got(Conj(l, r), rest);
    assert OrTail(Conj(l, r), rest) == Got(Conj(l, r), rest);
  }

  lemma {:induction false} ReadOr(ts: seq<Tok>, l: Tree, right: seq<Tok>, r: Tree, rest: seq<Tok>)
    requires ReadFactor(ts) == Got(l, [OR] + right) && ReadTerm(right) == Got(r, rest) && Closes(rest)
    ensures ReadSearch(ts) == Got(Disj(l, r), rest)
  {
    assert ([OR] + right)[1..] == right;
    assert AndTail(l, [OR] + right) == Got(l, [OR] + right);
    assert ReadTerm(ts) == Got(l, [OR] + right);
    assert OrTail(Disj(l, r), rest) == Got(Disj(l, r), rest);
  }

  lemma {:induction false} ReadJoined(left: seq<Tok>, l: Tree, join: Tok, right: seq<Tok>, r: Tree, rest: seq<Tok>)
    requires join == AND || join == OR
    requires ReadFactor(left + ([join] + (right + ([RP] + rest)))) == Got(l, [join] + (right + ([RP] + rest)))
    requires ReadFactor(right + ([RP] + rest)) == Got(r, [RP] + rest)
    ensures ReadFactor(Bracket(left, join, right) + rest) == Got(if join == AND then Conj(l, r) else Disj(l, r), rest)
  {
    hide ReadFactor, ReadSearch, ReadTerm;
    var more := right + ([RP] + rest);
    var body := left + ([join] + more);
    assert Bracket(left, join, right) + rest == [LP] + body;
    if join == AND {
      ReadAnd(body, l, more, r, [RP] + rest);
    } else {
      ReadLone(more, r, [RP] + rest);
      ReadOr(body, l, more, r, [RP] + rest);
    }
    ReadParen(body);
    assert ([RP] + rest)[1..] == rest;
  }

  lemma {:induction false} ReadNegated(inner: seq<Tok>, t: Tree, rest: seq<Tok>)
    requires ReadFactor(inner + ([RP] + rest)) == Got(t, [RP] + rest)
    ensures ReadFactor(Negated(inner) + rest) == Got(Neg(t), rest)
  {
    var body := inner + ([RP] + rest);
    assert Negated(inner) + rest == [NOT] + ([LP] + body);
    assert ([NOT] + ([LP] + body))[1..] == [LP] + body;
    ReadLone(body, t, [RP] + rest);
    ReadParen(body);
    assert ([RP] + rest)[1..] == rest;
  }

  /** Read with SQL precedence, the rendering of an expression is exactly its tree, whatever may follow it. */
  lemma {:induction false} ReadExpr(d: Dialect, e: Expr, off: nat, rest: seq<Tok>)
    requires Stops(rest)
    ensures ReadFactor(ExprToks(d, e, off) + rest) == Got(Shape(d, e, off), rest)
    decreases e, 1
  {
    hide ReadFactor, ReadSearch;
    match e
    case And(l, r) => ReadPair(d, e, off, rest);
    case Or(l, r) => ReadPair(d, e, off, rest);
    case Not(inner) =>
      ReadExpr(d, inner, off, [RP] + rest);
      ReadNegated(ExprToks(d, inner, off), Shape(d, inner, off), rest);
    case Case(bs, els) =>
      CaseAtoms(d, bs, els, off);
      ReadAtom(CaseToks(d, bs, els, off), rest);
    case _ =>
      LeafAtoms(d, e, off);
      ReadAtom(ExprToks(d, e, off), rest);
  }

  lemma {:induction false} ReadPair(d: Dialect, e: Expr, off: nat, rest: seq<Tok>)
    requires Stops(rest) && (e.And? || e.Or?)
    ensures ReadFactor(ExprToks(d, e, off) + rest) == Got(Shape(d, e, off), rest)
    decreases e, 0
  {
    hide ReadFactor, ReadSearch, ExprParams, Bracket;
    var join, off' := if e.And? then AND else OR, off + |ExprParams(e.l)|;
    var left, right := ExprToks(d, e.l, off), ExprToks(d, e.r, off');
    ReadExpr(d, e.l, off, [join] + (right + ([RP] + rest)));
    ReadExpr(d, e.r, off', [RP] + rest);
    ReadJoined(left, Shape(d, e.l, off), join, right, Shape(d, e.r, off'), rest);
    assert ExprToks(d, e, off) == Bracket(left, join, right);
  }

  /** The whole rendering, read as a search condition, is the tree of the expression. */
  lemma {:induction false} ReadWhole(d: Dialect, e: Expr, off: nat)
    ensures Read(ExprToks(d, e, off)) == Some(Shape(d, e, off))
  {
    hide ExprToks, Shape, ReadFactor;
    ReadExpr(d, e, off, []);
    assert ExprToks(d, e, off) + [] == ExprToks(d, e, off);
    ReadLone(ExprToks(d, e, off), Shape(d, e, off), []);
  }

  // ----- Meaning -----

  lemma {:induction false} ExprInline(d: Dialect, e: Expr, off: nat)
    ensures Inline(ExprToks(d, e, off)) == Inline(ExprToks(Postgres, e, 1))
  {
    hide *;
    ExprErase(d, Postgres, e, off, 1);
    M.EraseInline(ExprToks(d, e, off), ExprToks(Postgres, e, 1));
  }

  /** At any offset and in either dialect, the tree that is read has the meaning of the expression. */
  lemma {:induction false} ShapeMeans(d: Dialect, e: Expr, off: nat, row: Row)
    ensures Eval(Shape(d, e, off), row) == ExprEval(e, row)
  {
    hide ExprToks, Erase;
    match e
    case And(l, r) =>
      ShapeMeans(d, l, off, row);
      ShapeMeans(d, r, off + |ExprParams(l)|, row);
    case Or(l, r) =>
      ShapeMeans(d, l, off, row);
      ShapeMeans(d, r, off + |ExprParams(l)|, row);
    case Not(inner) => ShapeMeans(d, inner, off, row);
    case _ => ExprErase(d, Postgres, e, off, 1);
  }

  lemma {:induction false} ReadsExpr(d: Dialect, e: Expr, off: nat, row: Row)
    ensures Reads(ExprToks(d, e, off), Some(ExprEval(e, row)), row)
  {
    hide ExprToks, Shape, ExprEval, ReadFactor;
    forall rest | Stops(rest)
      ensures ReadsBefore(ExprToks(d, e, off), rest, Some(ExprEval(e, row)), row)
    {
      ReadExpr(d, e, off, rest);
      ShapeMeans(d, e, off, row);
    }
  }
}
