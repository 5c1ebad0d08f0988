/** The library's own tests, and the filters of both builders, on rows of column values. */
module ColumnFilters {
  import opened Text
  import opened Values
  import opened Tokens
  import opened Leaves
  import opened Search
  import opened Meaning
  import opened BridgeBack
  import opened AppendedTests
  import opened Columns
  import opened ColumnReading
  import opened SelectMeaning
  import W = CursorWalks
  import V = Cursor
  import R = Walks
  import C = Conditions
  import E = Exprs

  // ----- Soft deletion -----

  /** The row is admitted by the conditions with the soft-delete filter appended to them. */
  predicate Admitted(conds: seq<C.Item>, col: string, off: nat, s: Scene) {
    var t := Read(C.ItemsToks(Postgres, With(conds, NotDeleted(col)), off));
    t.Some? && Eval(t.value, Sight(s)).True?
  }

  lemma {:induction false} NullAtom(col: string, s: Scene)
    ensures Sight(s)([Frag(col)] + [Frag(" IS NULL")]) == Of(s.value(col).Null?)
  {
    hide ReadAtomic;
    NullRead(true, col, s);
    assert Erase(NullToks(true, col)) == [Frag(col)] + [Frag(" IS NULL")];
  }

  /** With no OR among the conditions, in every row that the final query admits the soft-delete column is NULL. */
  lemma {:induction false} DeletedRowsAreHidden(conds: seq<C.Item>, col: string, off: nat, s: Scene)
    requires SolidItems(conds) && OnlyAnds(ItemOps(conds))
    ensures Read(C.ItemsToks(Postgres, With(conds, NotDeleted(col)), off)).Some?
    ensures Admitted(conds, col, off, s) ==> s.value(col) == Null
  {
    hide Read, Eval, C.ItemsToks, SolidItems, Sight;
    SoftDeletedRowsExcluded(conds, col, off, Sight(s));
    NullAtom(col, s);
  }

  /** The scene in which the atom named `i` has the i-th value, and the column holds NULL or a number. */
  function AtomScene(vals: seq<Tri>, deleted: bool): Scene {
    Scene(_ => if deleted then Integer(0) else Null, (a, b) => None, (i, a, b) => Unknown, (a, k) => Null, (a, c, q) => Unknown,
          sub => Unknown, (a, sub) => Unknown,
          text => if AllDigits(text) && ParseNat(text) < |vals| then vals[ParseNat(text)] else Unknown, ts => Unknown)
  }

  lemma {:induction false} NumeralRead(k: nat, s: Scene)
    ensures ReadText(Decimal(k), s) == s.raw(Decimal(k))
  {
    var text := Decimal(k);
    assert forall i :: 0 <= i < |text| ==> IsDigit(text[i]) && NameChar(text[i]);
    NameRunOf(text, "");
    assert text + "" == text && text[|text|..] == "";
    assert text != "1=1" by {
      assert !IsDigit("1=1"[1]);
    }
    assert text != "1=0" by {
      assert !IsDigit("1=0"[1]);
    }
    assert !("EXISTS (" <= text) && !("NOT EXISTS (" <= text) by {
      assert !IsDigit("EXISTS ("[0]) && !IsDigit("NOT EXISTS ("[0]);
    }
  }

  lemma {:induction false} AtomSceneGives(vals: seq<Tri>, deleted: bool)
    ensures Gives(Sight(AtomScene(vals, deleted)), vals)
  {
    var s := AtomScene(vals, deleted);
    forall i: nat | i < |vals|
      ensures Sight(s)([Frag(Decimal(i))]) == vals[i]
    {
      hide ReadText, Decimal;
      NumeralRead(i, s);
      ParseDecimal(i);
    }
  }

  /** After distinct atoms, every row of column values that is admitted has a NULL in the soft-delete column. */
  ghost predicate HidesDeleted(ops: seq<JoinOp>, col: string, off: nat) {
    forall s: Scene :: Admitted(Named(ops, 0), col, off, s) ==> s.value(col) == Null
  }

  /** It does exactly when no atom but the first is joined by OR. */
  lemma {:induction false} HidesDeletedIff(ops: seq<JoinOp>, col: string, off: nat)
    ensures HidesDeleted(ops, col, off) <==> OnlyAnds(ops)
  {
    hide Read, Eval, C.ItemsToks, SolidItems, Sight, Named, OrOfRuns, Admitted, AtomScene, ItemVals;
    var items := Named(ops, 0);
    NamedSolid(ops);
    if OnlyAnds(ops) {
      forall s: Scene | Admitted(items, col, off, s)
        ensures s.value(col) == Null
      {
        DeletedRowsAreHidden(items, col, off, s);
      }
    } else {
      var i :| 0 < i < |ops| && !ops[i].JoinAnd?;
      DeletedAdmitted(ops, i, col, off);
    }
  }

  /** Atoms that are all true admit a deleted row, by the run that the OR ends. */
  lemma {:induction false} DeletedAdmitted(ops: seq<JoinOp>, i: nat, col: string, off: nat)
    requires 0 < i < |ops| && ops[i].JoinOr?
    ensures var s := AtomScene(seq(|ops|, _ => True), true);
            Admitted(Named(ops, 0), col, off, s) && s.value(col) != Null
  {
    hide Read, Eval, C.ItemsToks, SolidItems, Named, OrOfRuns, ItemVals, Gives, Sight, AtomOf;
    var vals := seq(|ops|, _ => True);
    var s := AtomScene(vals, true);
    var items, test := Named(ops, 0), NotDeleted(col);
    NamedSolid(ops);
    AtomSceneGives(vals, true);
    NamedValsIn(ops, 0, vals, Sight(s));
    assert vals[0..0 + |ops|] == vals;
    WithVals(items, test, Sight(s));
    WhereMeans(With(items, test), off, Sight(s));
    FirstRunTrue(ItemVals(With(items, test), Sight(s)), i);
  }

  // ----- Cursors -----

  /** The records are read as rows of column values. */
  ghost predicate OfColumns(db: W.Table, scene: R.Record -> Scene) {
    forall r: R.Record, atom: seq<Tok> :: db.truth(r, atom) == ReadAtomic(atom, scene(r))
  }

  /** Integers compare as numbers, and the column holds the key of the record. */
  ghost predicate HoldsKey(s: Scene, col: string, pk: V.i64) {
    && s.value(col) == Integer(pk as int)
    && forall a: int, b: int :: s.compare(Integer(a), Integer(b)) == Some(if a < b then Less else if a > b then Greater else Same)
  }

  /** On a table of column values in key order, the test that a cursor appends admits exactly the higher keys. */
  lemma {:induction false} CursorComparesKeys(db: W.Table, scene: R.Record -> Scene, col: string)
    requires W.Ascending(db.rows) && OfColumns(db, scene)
    requires forall r :: r in db.rows ==> HoldsKey(scene(r), col, r.pk)
    ensures W.Keyed(db, col)
  {
    hide ReadAtomic, Erase;
    forall r: R.Record, id: V.i64 | r in db.rows
      ensures db.truth(r, AtomOf(W.After(col, id))) == if r.pk > id then True else False
    {
      CondReads(Postgres, W.After(col, id), 1, scene(r));
      assert HoldsKey(scene(r), col, r.pk);
    }
  }

  // ----- The typed builder -----

  /** Every expression in the list has tests that can be read. */
  predicate AllPlain(es: seq<E.Expr>) {
    forall i :: 0 <= i < |es| ==> Plain(es[i])
  }

  function Meanings(es: seq<E.Expr>, op: JoinOp, s: Scene): seq<Joined>
    requires AllPlain(es)
  {
    seq(|es|, i requires 0 <= i < |es| => Joined(op, TreeMeaning(es[i], s)))
  }

  lemma {:induction false} ValsSight(es: seq<E.Expr>, op: JoinOp, s: Scene)
    requires AllPlain(es)
    ensures Vals(es, op, Sight(s)) == Meanings(es, op, s)
  {
    hide TreeMeaning, Sight, Plain;
    if es != [] {
      ExprSight(es[0], s);
      ValsSight(es[1..], op, s);
    }
  }

  /** On every row of column values a builder admits what passes all of its `where_` tests, or any of its `or_where` ones. */
  lemma {:induction false} BuilderTests(wheres: seq<E.Expr>, ors: seq<E.Expr>, off: nat, s: Scene)
    requires wheres != [] || ors != []
    requires AllPlain(wheres) && AllPlain(ors) && !Blank(wheres, ors, off)
    ensures var t := Read(WherePredicate(wheres, ors, off));
            t.Some? && Eval(t.value, Sight(s)) == AllOrAny(Meanings(wheres, JoinAnd, s), Meanings(ors, JoinOr, s))
  {
    hide Read, Eval, WherePredicate, Sight, Blank, Meanings, AllPlain;
    WhereIsAllOrAny(wheres, ors, off, Sight(s));
    ValsSight(wheres, JoinAnd, s);
    ValsSight(ors, JoinOr, s);
  }
}
