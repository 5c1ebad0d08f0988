/** DELETE, COUNT and UPDATE statements behind a WITH clause. */
module Statements {
  import opened Text
  import opened Values
  import opened Tokens
  import opened Leaves
  import opened Conditions
  import opened Queries

  /** DELETE and COUNT put their own head between the WITH clause and the WHERE clause. */
  function FilteredToks(d: Dialect, q: Query, head: string): seq<Tok> {
    Pieces(CtesToks(d, q.ctes), head, WhereToks(d, q.conds, |CteParams(q.ctes)| + 1), [], [])
  }

  function ToCount(d: Dialect, q: Query): seq<Tok> {
    FilteredToks(d, q, "SELECT COUNT(*) FROM " + q.table + Spaces(q.joins))
  }

  /** A DELETE without conditions is refused; joins are left out of it. */
  function ToDelete(d: Dialect, q: Query): Option<seq<Tok>> {
    if q.conds == [] then None else Some(FilteredToks(d, q, "DELETE FROM " + q.table))
  }

  lemma {:induction false} FilteredNumbering(d: Dialect, q: Query, head: string)
    ensures Slots(FilteredToks(d, q, head)) == Numbered(d, CteParams(q.ctes) + ItemsParams(q.conds), 1)
  {
    hide ItemsToks, CtesToks, Params, CteParams, ItemsParams;
    CtesSlots(d, q.ctes);
    WhereSlots(d, q.conds, |CteParams(q.ctes)| + 1);
    assert CteParams(q.ctes) + ItemsParams(q.conds) + [] == CteParams(q.ctes) + ItemsParams(q.conds);
    PiecesSlots(d, FilteredToks(d, q, head), CteParams(q.ctes) + ItemsParams(q.conds), CtesToks(d, q.ctes),
                CteParams(q.ctes), head, WhereToks(d, q.conds, |CteParams(q.ctes)| + 1), ItemsParams(q.conds), [], [], []);
  }

  // ----- UPDATE -----

  datatype Assignment = Assignment(col: string, val: SqlValue)

  function Assigned(data: seq<Assignment>): seq<SqlValue> {
    seq(|data|, i requires 0 <= i < |data| => data[i].val)
  }

  /** The SET clauses from number `k` on. */
  function SetClauses(d: Dialect, data: seq<Assignment>, k: nat): seq<Tok> {
    if data == [] then []
    else
      [Frag(data[0].col + " = ")] + [Ph(Number(d, k), data[0].val)] + [Frag(if |data| > 1 then ", " else "")]
      + SetClauses(d, data[1..], k + 1)
  }

  /** The SET clauses are numbered from 1, whatever the WITH clause has bound; the WHERE clause is not. */
  function UpdateToks(d: Dialect, q: Query, data: seq<Assignment>): seq<Tok> {
    CtesToks(d, q.ctes) + [Frag("UPDATE " + q.table + " SET ")] + SetClauses(d, data, 1)
    + WhereToks(d, q.conds, |CteParams(q.ctes)| + |data| + 1)
  }

  /** An UPDATE without conditions is refused. */
  function ToUpdate(d: Dialect, q: Query, data: seq<Assignment>): Option<seq<Tok>> {
    if q.conds == [] then None else Some(UpdateToks(d, q, data))
  }

  function UpdateParams(q: Query, data: seq<Assignment>): seq<SqlValue> {
    CteParams(q.ctes) + Assigned(data) + ItemsParams(q.conds)
  }

  lemma {:induction false} SetClauseSlots(d: Dialect, data: seq<Assignment>, k: nat)
    ensures Slots(SetClauses(d, data, k)) == Numbered(d, Assigned(data), k)
  {
    if data != [] {
      var first := [Frag(data[0].col + " = ")] + [Ph(Number(d, k), data[0].val)] + [Frag(if |data| > 1 then ", " else "")];
      SetClauseSlots(d, data[1..], k + 1);
      SlotsCat(first, SetClauses(d, data[1..], k + 1));
      SlotsWrap([Frag(data[0].col + " = ")], [Ph(Number(d, k), data[0].val)], [Frag(if |data| > 1 then ", " else "")]);
      assert Assigned(data) == [data[0].val] + Assigned(data[1..]);
      NumberedCat(d, [data[0].val], Assigned(data[1..]), k);
      assert Slots([Ph(Number(d, k), data[0].val)]) == Numbered(d, [data[0].val], k);
    }
  }

  lemma {:induction false} UpdateSlots(d: Dialect, q: Query, data: seq<Assignment>)
    ensures Slots(UpdateToks(d, q, data))
         == Numbered(d, CteParams(q.ctes), 1) + Numbered(d, Assigned(data), 1)
            + Numbered(d, ItemsParams(q.conds), |CteParams(q.ctes)| + |data| + 1)
  {
    hide ItemsToks, CtesToks, WhereToks, Params, CteParams, ItemsParams, SetClauses, Numbered;
    var head, where := [Frag("UPDATE " + q.table + " SET ")], WhereToks(d, q.conds, |CteParams(q.ctes)| + |data| + 1);
    CtesSlots(d, q.ctes);
    SetClauseSlots(d, data, 1);
    WhereSlots(d, q.conds, |CteParams(q.ctes)| + |data| + 1);
    SlotsCat(CtesToks(d, q.ctes), head);
    SlotsCat(CtesToks(d, q.ctes) + head, SetClauses(d, data, 1));
    SlotsCat(CtesToks(d, q.ctes) + head + SetClauses(d, data, 1), where);
  }

  lemma {:induction false} SameNumbers(a: seq<SqlValue>, b: seq<SqlValue>, c: seq<SqlValue>)
    ensures Numbered(Postgres, a, 1) + Numbered(Postgres, b, 1) + Numbered(Postgres, c, |a| + |b| + 1)
         == Numbered(Postgres, a + b + c, 1)
       <==> a == [] || b == []
  {
    var left := Numbered(Postgres, a, 1) + Numbered(Postgres, b, 1) + Numbered(Postgres, c, |a| + |b| + 1);
    var right := Numbered(Postgres, a + b + c, 1);
    if a != [] && b != [] {
      assert left[|a|] == Numbered(Postgres, b, 1)[0] == Ph(1, b[0]);
      assert right[|a|] == Ph(Number(Postgres, 1 + |a|), b[0]);
    } else {
      NumberedCat(Postgres, a, b, 1);
      NumberedCat(Postgres, a + b, c, 1);
      if a == [] {
        assert a + b == b;
      } else {
        assert a + b == a;
      }
    }
  }

  /** A PostgreSQL UPDATE is numbered as its parameters demand exactly when its WITH clause, or its SET list, binds none. */
  lemma {:induction false} UpdateNumberingIff(q: Query, data: seq<Assignment>)
    ensures Slots(UpdateToks(Postgres, q, data)) == Numbered(Postgres, UpdateParams(q, data), 1)
       <==> CteParams(q.ctes) == [] || data == []
  {
    hide UpdateToks, CteParams, ItemsParams, Slots, Numbered;
    UpdateSlots(Postgres, q, data);
    SameNumbers(CteParams(q.ctes), Assigned(data), ItemsParams(q.conds));
  }
}
