/** Tests that the library adds to the caller's conditions: the soft-delete filter, the cursor, a foreign key. */
module AppendedTests {
  import opened Text
  import opened Values
  import opened Tokens
  import opened Leaves
  import opened Search
  import opened Meaning
  import opened BridgeBack
  import C = Conditions

  /** The builder's `where_` methods append a test, joined by AND. */
  function With(conds: seq<C.Item>, test: C.Condition): seq<C.Item> {
    conds + [C.Item(JoinAnd, test)]
  }

  /** What a row decides a test by: its tokens, without their numbers. */
  function AtomOf(test: C.Condition): seq<Tok> {
    Erase(C.CondToks(Postgres, test, 1))
  }

  /** `into_final_builder` appends this one for a model with a soft-delete column. */
  function NotDeleted(col: string): C.Condition {
    C.NullTest(true, col)
  }

  /** No condition after the first is joined by OR. */
  predicate OnlyAnds(ops: seq<JoinOp>) {
    forall k :: 0 < k < |ops| ==> ops[k].JoinAnd?
  }

  lemma {:induction false} WithVals(conds: seq<C.Item>, test: C.Condition, row: Row)
    requires !test.Group?
    ensures ItemVals(With(conds, test), row) == ItemVals(conds, row) + [Joined(JoinAnd, row(AtomOf(test)))]
    ensures SolidItems(With(conds, test)) <==> SolidItems(conds)
    decreases conds
  {
    if conds == [] {
      assert With(conds, test)[1..] == [];
    } else {
      hide CondEval;
      WithVals(conds[1..], test, row);
      assert With(conds, test)[1..] == With(conds[1..], test);
    }
  }

  lemma {:induction false} AllOfSnoc(js: seq<Joined>, last: Joined)
    ensures AllOf(js + [last]) == TAnd(AllOf(js), last.val)
  {
    if js == [] {
      assert [] + [last] == [last] && [last][1..] == [];
    } else {
      AllOfSnoc(js[1..], last);
      assert (js + [last])[1..] == js[1..] + [last];
    }
  }

  lemma {:induction false} RunSnoc(js: seq<Joined>, last: Joined)
    requires js != [] && last.op.JoinAnd? && forall k :: 0 < k < |js| ==> js[k].op.JoinAnd?
    ensures OrOfRuns(js + [last]) == TAnd(OrOfRuns(js), last.val)
  {
    hide OrOfRuns, AllOf;
    OneRun(js);
    OneRun(js + [last]);
    AllOfSnoc(js, last);
  }

  /** Without an OR among the conditions the appended test restricts what they admit, and nothing else. */
  lemma {:induction false} AppendedMeans(conds: seq<C.Item>, test: C.Condition, off: nat, row: Row)
    requires conds != [] && SolidItems(conds) && OnlyAnds(ItemOps(conds)) && !test.Group?
    ensures var t, all := Read(C.ItemsToks(Postgres, conds, off)), Read(C.ItemsToks(Postgres, With(conds, test), off));
            t.Some? && all.Some? && Eval(all.value, row) == TAnd(Eval(t.value, row), row(AtomOf(test)))
  {
    hide Read, Eval, SolidItems, C.ItemsToks, ItemVals, OrOfRuns, AtomOf;
    WithVals(conds, test, row);
    WhereMeans(conds, off, row);
    WhereMeans(With(conds, test), off, row);
    var js := ItemVals(conds, row);
    assert forall k :: 0 <= k < |conds| ==> js[k].op == ItemOps(conds)[k];
    RunSnoc(js, Joined(JoinAnd, row(AtomOf(test))));
  }

  lemma {:induction false} AloneMeans(test: C.Condition, off: nat, row: Row)
    requires !test.Group?
    ensures var t := Read(C.ItemsToks(Postgres, With([], test), off));
            t.Some? && Eval(t.value, row) == row(AtomOf(test))
  {
    hide Read, Eval, C.ItemsToks, ItemVals, AtomOf;
    WithVals([], test, row);
    WhereMeans(With([], test), off, row);
    NoVals(row);
    var js := ItemVals(With([], test), row);
    assert js == [] + [Joined(JoinAnd, row(AtomOf(test)))];
    OneRun(js);
    AllOfSnoc([], js[0]);
  }

  lemma {:induction false} NoVals(row: Row)
    ensures ItemVals([], row) == [] && SolidItems([])
  {
  }

  // ----- Exactly when an appended test binds -----

  /** A row that the list with the test admits passes the test. */
  predicate BindsIn(conds: seq<C.Item>, test: C.Condition, off: nat, row: Row) {
    var t := Read(C.ItemsToks(Postgres, With(conds, test), off));
    t.Some? && (Eval(t.value, row).True? ==> row(AtomOf(test)).True?)
  }

  lemma {:induction false} AppendedBinds(conds: seq<C.Item>, test: C.Condition, off: nat, row: Row)
    requires SolidItems(conds) && OnlyAnds(ItemOps(conds)) && !test.Group?
    ensures BindsIn(conds, test, off, row)
  {
    hide Read, Eval, SolidItems, C.ItemsToks, AtomOf;
    if conds == [] {
      AloneMeans(test, off, row);
    } else {
      AppendedMeans(conds, test, off, row);
    }
  }

  /** For a list of distinct atoms joined by `ops`: every row that is admitted passes the test. */
  ghost predicate Binds(ops: seq<JoinOp>, test: C.Condition, off: nat) {
    forall row: Row :: BindsIn(Named(ops, 0), test, off, row)
  }

  /** A numeral, as the distinct atoms are. */
  predicate IsNumeral(atom: seq<Tok>) {
    |atom| == 1 && atom[0].Frag? && AllDigits(atom[0].s)
  }

  /** The row that gives the test one value and the named atoms the others. */
  function TestRow(vals: seq<Tri>, test: seq<Tok>, val: Tri): Row {
    atom => if atom == test then val else RowOf(vals)(atom)
  }

  lemma {:induction false} TestRowGives(vals: seq<Tri>, test: seq<Tok>, val: Tri)
    requires !IsNumeral(test)
    ensures Gives(TestRow(vals, test, val), vals)
  {
    hide RowOf, Decimal;
    RowGives(vals);
    forall i: nat | i < |vals|
      ensures TestRow(vals, test, val)([Frag(Decimal(i))]) == vals[i]
    {
      assert IsNumeral([Frag(Decimal(i))]);
    }
  }

  lemma {:induction false} TestValues(ops: seq<JoinOp>, vals: seq<Tri>, test: C.Condition)
    requires |vals| == |ops| + 1 && !test.Group? && !IsNumeral(AtomOf(test))
    ensures var row := TestRow(vals[..|ops|], AtomOf(test), vals[|ops|]);
            && ItemVals(With(Named(ops, 0), test), row) == Zip(ops + [JoinAnd], vals)
            && row(AtomOf(test)) == vals[|ops|]
  {
    hide ItemVals, Named, Decimal, RowOf, AtomOf, IsNumeral;
    var front := vals[..|ops|];
    var row := TestRow(front, AtomOf(test), vals[|ops|]);
    TestRowGives(front, AtomOf(test), vals[|ops|]);
    NamedValsIn(ops, 0, front, row);
    assert front[0..0 + |ops|] == front;
    WithVals(Named(ops, 0), test, row);
    assert Zip(ops + [JoinAnd], vals) == Zip(ops, front) + [Joined(JoinAnd, vals[|ops|])];
  }

  lemma {:induction false} NamedSolid(ops: seq<JoinOp>)
    ensures SolidItems(Named(ops, 0)) && ItemOps(Named(ops, 0)) == ops
  {
    NamedShape(ops, 0);
    KeptItemsSolid(Named(ops, 0));
  }

  /**
   * After distinct atoms, an appended test binds every admitted row exactly when no atom but the first is joined by OR.
   */
  lemma {:induction false} AppendedTestIff(ops: seq<JoinOp>, test: C.Condition, off: nat)
    requires !test.Group? && !IsNumeral(AtomOf(test))
    ensures Binds(ops, test, off) <==> OnlyAnds(ops)
  {
    hide Read, Eval, ItemVals, Named, C.ItemsToks, OrOfRuns, TestRow, SolidItems, AtomOf, IsNumeral;
    var items := Named(ops, 0);
    NamedSolid(ops);
    if OnlyAnds(ops) {
      forall row: Row
        ensures BindsIn(items, test, off, row)
      {
        AppendedBinds(items, test, off, row);
      }
    } else {
      AppendedFilterIff(ops);
      var vals: seq<Tri> :| |vals| == |ops| + 1 && OrOfRuns(Zip(ops + [JoinAnd], vals)).True? && !vals[|ops|].True?;
      var row := TestRow(vals[..|ops|], AtomOf(test), vals[|ops|]);
      TestValues(ops, vals, test);
      WithVals(items, test, row);
      WhereMeans(With(items, test), off, row);
      assert !BindsIn(items, test, off, row);
    }
  }

  // ----- The soft-delete filter -----

  lemma {:induction false} NotDeletedAtom(col: string)
    ensures AtomOf(NotDeleted(col)) == [Frag(col)] + [Frag(" IS NULL")] && !IsNumeral(AtomOf(NotDeleted(col)))
  {
  }

  /** With no OR among the conditions, every row that the final query admits has a null soft-delete column. */
  lemma {:induction false} SoftDeletedRowsExcluded(conds: seq<C.Item>, col: string, off: nat, row: Row)
    requires SolidItems(conds) && OnlyAnds(ItemOps(conds))
    ensures var t := Read(C.ItemsToks(Postgres, With(conds, NotDeleted(col)), off));
            t.Some? && (Eval(t.value, row).True? ==> row([Frag(col)] + [Frag(" IS NULL")]).True?)
  {
    hide Read, Eval, C.ItemsToks, SolidItems, AtomOf;
    NotDeletedAtom(col);
    AppendedBinds(conds, NotDeleted(col), off, row);
  }

  /** After distinct atoms, the filter binds every admitted row exactly when no atom but the first is joined by OR. */
  lemma {:induction false} SoftDeleteIff(ops: seq<JoinOp>, col: string, off: nat)
    ensures Binds(ops, NotDeleted(col), off) <==> OnlyAnds(ops)
  {
    NotDeletedAtom(col);
    AppendedTestIff(ops, NotDeleted(col), off);
  }

  // ----- The foreign-key test of a subquery -----

  /** The WHERE list of a subquery: its foreign-key test, then the conditions, the first of them joined by AND. */
  function Correlated(fk: string, inner: seq<C.Item>): seq<C.Item> {
    [C.Item(JoinAnd, C.Raw(fk))] + FirstByAnd(inner)
  }

  function FirstByAnd(inner: seq<C.Item>): seq<C.Item> {
    if inner == [] then [] else [C.Item(JoinAnd, inner[0].cond)] + inner[1..]
  }

  lemma {:induction false} CorrelatedText(fk: string, inner: seq<C.Item>, off: nat)
    ensures Flatten(C.ItemsToks(Postgres, Correlated(fk, inner), off))
         == fk + Flatten(C.ExtraToks(Postgres, inner, off))
  {
    hide *;
    ExtraText(inner, off);
    CorrelatedToks(fk, inner, off);
    FlattenCat([Frag(fk)], C.TailToks(Postgres, FirstByAnd(inner), off));
    SpelledFrag(fk);
  }

  lemma {:induction false} CorrelatedToks(fk: string, inner: seq<C.Item>, off: nat)
    ensures C.ItemsToks(Postgres, Correlated(fk, inner), off)
         == [Frag(fk)] + C.TailToks(Postgres, FirstByAnd(inner), off)
  {
    assert Correlated(fk, inner)[1..] == FirstByAnd(inner);
  }

  lemma {:induction false} ExtraText(inner: seq<C.Item>, off: nat)
    ensures Flatten(C.TailToks(Postgres, FirstByAnd(inner), off)) == Flatten(C.ExtraToks(Postgres, inner, off))
  {
    if inner != [] {
      var body := C.ItemsToks(Postgres, inner, off);
      ExtraList(inner, off);
      hide C.ItemsToks, C.TailToks;
      OpaqueText(body);
      FlattenCat([AND], body);
      FlattenCat([Frag(" AND ")], Opaque(body));
      AndText();
    }
  }

  lemma {:induction false} AndText()
    ensures Flatten([AND]) == " AND " == Flatten([Frag(" AND ")])
  {
    assert [AND][1..] == [] && [Frag(" AND ")][1..] == [];
  }

  lemma {:induction false} ExtraList(inner: seq<C.Item>, off: nat)
    requires inner != []
    ensures C.TailToks(Postgres, FirstByAnd(inner), off) == [AND] + C.ItemsToks(Postgres, inner, off)
  {
    hide C.CondToks, C.CondParams;
    assert FirstByAnd(inner)[1..] == inner[1..];
  }

  /** Between its opening and the closing parenthesis a subquery holds the text of that list. */
  lemma {:induction false} SubqueryText(positive: bool, table: string, fk: string, inner: seq<C.Item>, off: nat)
    ensures Flatten(C.CondToks(Postgres, C.Subquery(positive, table, fk, inner), off))
         == C.SubqueryOpen(positive) + table + " WHERE " + Flatten(C.ItemsToks(Postgres, Correlated(fk, inner), off)) + ")"
  {
    var open, extra := C.SubqueryOpen(positive), C.ExtraToks(Postgres, inner, off);
    CorrelatedText(fk, inner, off);
    SubqueryIs(positive, table, fk, inner, off);
    hide *;
    FlattenCat([Frag(open)] + [Frag(table)] + [Frag(" WHERE ")] + [Frag(fk)] + extra, [Frag(")")]);
    FlattenCat([Frag(open)] + [Frag(table)] + [Frag(" WHERE ")] + [Frag(fk)], extra);
    FlattenCat([Frag(open)] + [Frag(table)] + [Frag(" WHERE ")], [Frag(fk)]);
    FlattenCat([Frag(open)] + [Frag(table)], [Frag(" WHERE ")]);
    FlattenCat([Frag(open)], [Frag(table)]);
    SpelledFrag(open);
    SpelledFrag(table);
    SpelledFrag(" WHERE ");
    SpelledFrag(fk);
    SpelledFrag(")");
    assert open + table + " WHERE " + (fk + Flatten(extra)) == open + table + " WHERE " + fk + Flatten(extra);
  }

  lemma {:induction false} SubqueryIs(positive: bool, table: string, fk: string, inner: seq<C.Item>, off: nat)
    ensures C.CondToks(Postgres, C.Subquery(positive, table, fk, inner), off)
         == [Frag(C.SubqueryOpen(positive))] + [Frag(table)] + [Frag(" WHERE ")] + [Frag(fk)]
            + C.ExtraToks(Postgres, inner, off) + [Frag(")")]
  {
    hide C.ExtraToks;
  }

  /** A row that the subquery finds passes the foreign-key test. */
  predicate CorrelatesIn(fk: string, inner: seq<C.Item>, off: nat, row: Row) {
    var t := Read(C.ItemsToks(Postgres, Correlated(fk, inner), off));
    t.Some? && (Eval(t.value, row).True? ==> row([Frag(fk)]).True?)
  }

  ghost predicate Correlates(fk: string, ops: seq<JoinOp>, off: nat) {
    forall row: Row :: CorrelatesIn(fk, Named(ops, 0), off, row)
  }

  function OpsFirstByAnd(ops: seq<JoinOp>): seq<JoinOp> {
    [JoinAnd] + if ops == [] then [] else [JoinAnd] + ops[1..]
  }

  lemma {:induction false} FirstByAndVals(inner: seq<C.Item>, row: Row)
    ensures var js, all := ItemVals(inner, row), ItemVals(FirstByAnd(inner), row);
            |all| == |js| && forall i :: 0 <= i < |js| ==> all[i].val == js[i].val && all[i].op == FirstByAnd(inner)[i].op
    ensures SolidItems(FirstByAnd(inner)) <==> SolidItems(inner)
  {
    hide CondEval;
    if inner != [] {
      assert FirstByAnd(inner)[1..] == inner[1..];
    }
  }

  lemma {:induction false} CorrelatedVals(fk: string, inner: seq<C.Item>, row: Row)
    ensures ItemVals(Correlated(fk, inner), row) == [Joined(JoinAnd, row([Frag(fk)]))] + ItemVals(FirstByAnd(inner), row)
    ensures SolidItems(Correlated(fk, inner)) <==> SolidItems(inner)
  {
    FirstByAndVals(inner, row);
    hide ItemVals, FirstByAnd, SolidItems;
    assert Erase([Frag(fk)]) == [Frag(fk)];
    CorrelatedUnfold(fk, FirstByAnd(inner), row);
  }

  lemma {:induction false} CorrelatedUnfold(fk: string, rest: seq<C.Item>, row: Row)
    ensures var all := [C.Item(JoinAnd, C.Raw(fk))] + rest;
            ItemVals(all, row) == [Joined(JoinAnd, row(Erase([Frag(fk)])))] + ItemVals(rest, row)
            && (SolidItems(all) <==> SolidItems(rest))
  {
    var all := [C.Item(JoinAnd, C.Raw(fk))] + rest;
    assert all[1..] == rest;
  }

  lemma {:induction false} SubqueryBinds(fk: string, inner: seq<C.Item>, off: nat, row: Row)
    requires SolidItems(inner) && OnlyAnds(ItemOps(inner))
    ensures CorrelatesIn(fk, inner, off, row)
  {
    hide Read, Eval, C.ItemsToks, ItemVals, SolidItems, OrOfRuns;
    var all := Correlated(fk, inner);
    CorrelatedVals(fk, inner, row);
    WhereMeans(all, off, row);
    var js := ItemVals(all, row);
    assert forall k :: 0 < k < |inner| ==> inner[k].op == ItemOps(inner)[k];
    assert forall k :: 0 <= k < |js| ==> js[k].op == all[k].op;
    OneRun(js);
  }

  lemma {:induction false} ForcedVals(ops: seq<JoinOp>, vals: seq<Tri>, row: Row)
    requires |vals| == |ops| + 1 && Gives(row, vals[1..])
    ensures [Joined(JoinAnd, vals[0])] + ItemVals(FirstByAnd(Named(ops, 0)), row) == Zip(OpsFirstByAnd(ops), vals)
  {
    hide ItemVals, Named, Decimal, Gives;
    var rest, items := vals[1..], Named(ops, 0);
    NamedValsIn(ops, 0, rest, row);
    NamedSolid(ops);
    assert rest[0..0 + |ops|] == rest;
    FirstByAndVals(items, row);
    var js := ItemVals(FirstByAnd(items), row);
    assert forall k :: 0 <= k < |ops| ==> ItemOps(items)[k] == items[k].op;
    forall k | 0 <= k < |ops|
      ensures js[k] == Zip(OpsFirstByAnd(ops), vals)[k + 1]
    {
      assert Zip(ops, rest)[k] == Joined(ops[k], rest[k]);
    }
  }

  lemma {:induction false} SubqueryValues(fk: string, ops: seq<JoinOp>, vals: seq<Tri>)
    requires |vals| == |ops| + 1 && !AllDigits(fk)
    ensures var row := TestRow(vals[1..], [Frag(fk)], vals[0]);
            ItemVals(Correlated(fk, Named(ops, 0)), row) == Zip(OpsFirstByAnd(ops), vals) && row([Frag(fk)]) == vals[0]
  {
    hide ItemVals, Named, Decimal, RowOf, AllDigits, Correlated, Gives, Zip, OpsFirstByAnd;
    var row := TestRow(vals[1..], [Frag(fk)], vals[0]);
    TestRowGives(vals[1..], [Frag(fk)], vals[0]);
    CorrelatedVals(fk, Named(ops, 0), row);
    ForcedVals(ops, vals, row);
  }

  /**
   * Before distinct atoms, the foreign-key test binds every row the subquery finds exactly when no atom but the first
   * is joined by OR.
   */
  lemma {:induction false} SubqueryBindsIff(fk: string, ops: seq<JoinOp>, off: nat)
    requires !AllDigits(fk)
    ensures Correlates(fk, ops, off) <==> OnlyAnds(ops)
  {
    hide Read, Eval, ItemVals, Named, C.ItemsToks, OrOfRuns, TestRow, SolidItems, AllDigits, Correlated;
    var items := Named(ops, 0);
    NamedSolid(ops);
    if OnlyAnds(ops) {
      forall row: Row
        ensures CorrelatesIn(fk, items, off, row)
      {
        SubqueryBinds(fk, items, off, row);
      }
    } else {
      LeadingTestIff(OpsFirstByAnd(ops));
      var k :| 0 < k < |ops| && !ops[k].JoinAnd?;
      assert OpsFirstByAnd(ops)[k + 1] == ops[k];
      var vals: seq<Tri> :| |vals| == |ops| + 1 && OrOfRuns(Zip(OpsFirstByAnd(ops), vals)).True? && !vals[0].True?;
      var row := TestRow(vals[1..], [Frag(fk)], vals[0]);
      SubqueryValues(fk, ops, vals);
      CorrelatedVals(fk, items, row);
      WhereMeansOf(fk, items, off, row);
      assert !CorrelatesIn(fk, items, off, row);
    }
  }

  lemma {:induction false} WhereMeansOf(fk: string, inner: seq<C.Item>, off: nat, row: Row)
    requires SolidItems(inner)
    ensures var t := Read(C.ItemsToks(Postgres, Correlated(fk, inner), off));
            t.Some? && ItemVals(Correlated(fk, inner), row) != []
            && Eval(t.value, row) == OrOfRuns(ItemVals(Correlated(fk, inner), row))
  {
    hide Read, Eval, C.ItemsToks, OrOfRuns, SolidItems;
    CorrelatedVals(fk, inner, row);
    WhereMeans(Correlated(fk, inner), off, row);
  }
}
