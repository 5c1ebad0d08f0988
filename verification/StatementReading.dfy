/** COUNT, DELETE and UPDATE statements, read back: what they count or change, and which column gets which value. */
module StatementReading {
  import opened Text
  import opened Values
  import opened Tokens
  import opened Conditions
  import opened Queries
  import opened QueryReading
  import opened Statements

  datatype Command = Counting(source: string) | Deleting(table: string) | Updating(table: string, sets: seq<(string, SqlValue)>)

  /** No filter stands for all rows. */
  datatype Written = Written(defs: seq<Definition>, command: Command, filter: Option<seq<Tok>>)

  // ----- Reading -----

  /** A numbered placeholder stands for the parameter of its number, any other for the parameter of its position. */
  function BoundAt(t: Tok, params: seq<SqlValue>, pos: nat): Option<SqlValue> {
    if !t.Ph? then None
    else if t.n > 0 then if t.n <= |params| then Some(params[t.n - 1]) else None
    else if pos < |params| then Some(params[pos])
    else None
  }

  function ReadColumn(t: Tok): Option<string> {
    if t.Frag? && |t.s| >= 3 && t.s[|t.s| - 3..] == " = " then Some(t.s[..|t.s| - 3]) else None
  }

  /** Columns with their values, up to the WHERE clause. */
  function ReadSets(ts: seq<Tok>, params: seq<SqlValue>, pos: nat): Option<(seq<(string, SqlValue)>, seq<Tok>)> {
    if ts == [] || ts[0] == Frag(" WHERE ") then Some(([], ts))
    else if |ts| < 3 || ReadColumn(ts[0]).None? || BoundAt(ts[1], params, pos).None? then None
    else
      var first := (ReadColumn(ts[0]).value, BoundAt(ts[1], params, pos).value);
      if ts[2] == Frag("") then Some(([first], ts[3..]))
      else if ts[2] != Frag(", ") then None
      else
        match ReadSets(ts[3..], params, pos + 1)
        case None => None
        case Some(more) => Some(([first] + more.0, more.1))
  }

  function ReadCommand(s: string): Option<Command> {
    if "SELECT COUNT(*) FROM " <= s then Some(Counting(s[21..]))
    else if "DELETE FROM " <= s then Some(Deleting(s[12..]))
    else if "UPDATE " <= s && |s| >= 12 && s[|s| - 5..] == " SET " then Some(Updating(s[7..|s| - 5], []))
    else None
  }

  function ReadWritten(ts: seq<Tok>, params: seq<SqlValue>): Option<Written> {
    match ReadWith(ts)
    case None => None
    case Some(with) =>
      if with.rest == [] || !with.rest[0].Frag? then None
      else
        match ReadCommand(with.rest[0].s)
        case None => None
        case Some(command) =>
          var before := if |with.rest| <= |ts| then |Slots(ts[..|ts| - |with.rest|])| else 0;
          if command.Updating? then
            match ReadSets(with.rest[1..], params, before)
            case None => None
            case Some(sets) =>
              if ReadFilter(sets.1).None? then None
              else Some(Written(with.defs, Updating(command.table, sets.0), ReadFilter(sets.1).value))
          else if ReadFilter(with.rest[1..]).None? then None
          else Some(Written(with.defs, command, ReadFilter(with.rest[1..]).value))
  }

  // ----- What was written is read -----

  /** The conditions as they stand after `n` parameters. */
  function Filter(d: Dialect, q: Query, n: nat): Option<seq<Tok>> {
    if q.conds == [] then None else Some(ItemsToks(d, q.conds, n + 1))
  }

  lemma {:induction false} CommandOf(ts: seq<Tok>, params: seq<SqlValue>, with: With, head: string, command: Command,
                                     filter: Option<seq<Tok>>, tests: seq<Tok>)
    requires ReadWith(ts) == Some(with) && with.rest == [Frag(head)] + tests
    requires ReadCommand(head) == Some(command) && !command.Updating? && ReadFilter(tests) == Some(filter)
    ensures ReadWritten(ts, params) == Some(Written(with.defs, command, filter))
  {
    hide ReadWith, ReadCommand, ReadFilter, Slots;
    assert with.rest[1..] == tests;
  }

  lemma {:induction false} FilteredIs(d: Dialect, q: Query, head: string)
    ensures FilteredToks(d, q, head) == CtesToks(d, q.ctes) + ([Frag(head)] + WhereToks(d, q.conds, |CteParams(q.ctes)| + 1))
  {
    hide CtesToks, WhereToks, CteParams;
    assert ClauseToks([]) == [];
    var a, b, c := CtesToks(d, q.ctes), [Frag(head)], WhereToks(d, q.conds, |CteParams(q.ctes)| + 1);
    assert a + b + c + [] + [] == a + (b + c);
  }

  lemma {:induction false} FilteredReads(d: Dialect, q: Query, head: string, command: Command, params: seq<SqlValue>)
    requires CalmCtes(q.ctes) && ReadCommand(head) == Some(command) && !command.Updating? && head != "" && head[0] != 'W'
    ensures ReadWritten(FilteredToks(d, q, head), params)
         == Some(Written(Defined(d, q.ctes, 0), command, Filter(d, q, |CteParams(q.ctes)|)))
  {
    hide CtesToks, WhereToks, CteParams, FilteredToks, ReadWith, ReadWritten, ReadCommand, ReadFilter, Defined, AnyRecursive;
    hide CalmCtes, ItemsToks;
    var tests := WhereToks(d, q.conds, |CteParams(q.ctes)| + 1);
    FilteredIs(d, q, head);
    NotWith(head);
    WithRead(d, q.ctes, [Frag(head)] + tests);
    FilterRead(d, q.conds, |CteParams(q.ctes)| + 1);
    CommandOf(FilteredToks(d, q, head), params, With(AnyRecursive(q.ctes), Defined(d, q.ctes, 0), [Frag(head)] + tests), head,
              command, Filter(d, q, |CteParams(q.ctes)|), tests);
  }

  lemma {:induction false} NotWith(head: string)
    requires head != "" && head[0] != 'W'
    ensures head != "WITH " && head != "WITH RECURSIVE "
  {
    assert "WITH "[0] == 'W' && "WITH RECURSIVE "[0] == 'W';
  }

  lemma {:induction false} CountCommand(source: string)
    ensures ReadCommand("SELECT COUNT(*) FROM " + source) == Some(Counting(source))
  {
    assert ("SELECT COUNT(*) FROM " + source)[21..] == source;
  }

  lemma {:induction false} DeleteCommand(table: string)
    ensures ReadCommand("DELETE FROM " + table) == Some(Deleting(table))
  {
    var s := "DELETE FROM " + table;
    assert s[12..] == table;
    assert s[0] == 'D' && "SELECT COUNT(*) FROM "[0] == 'S';
  }

  lemma {:induction false} UpdateCommand(table: string)
    ensures ReadCommand("UPDATE " + table + " SET ") == Some(Updating(table, []))
  {
    var s := "UPDATE " + table + " SET ";
    assert s[|s| - 5..] == " SET " && s[7..|s| - 5] == table;
    assert s[0] == 'U' && "SELECT COUNT(*) FROM "[0] == 'S' && "DELETE FROM "[0] == 'D';
  }

  /** A count is taken over the table with its joins, under all conditions. */
  lemma {:induction false} CountReads(d: Dialect, q: Query, params: seq<SqlValue>)
    requires CalmCtes(q.ctes)
    ensures ReadWritten(ToCount(d, q), params)
         == Some(Written(Defined(d, q.ctes, 0), Counting(q.table + Spaces(q.joins)), Filter(d, q, |CteParams(q.ctes)|)))
  {
    hide ReadCommand, FilteredToks, CteParams, Defined, CalmCtes, ReadWritten, Filter;
    var head := "SELECT COUNT(*) FROM " + q.table + Spaces(q.joins);
    assert head == "SELECT COUNT(*) FROM " + (q.table + Spaces(q.joins)) && head[0] == 'S';
    CountCommand(q.table + Spaces(q.joins));
    FilteredReads(d, q, head, Counting(q.table + Spaces(q.joins)), params);
  }

  /** What is deleted is what the conditions pick out of the table; without conditions nothing is written. */
  lemma {:induction false} DeleteReads(d: Dialect, q: Query, params: seq<SqlValue>)
    requires CalmCtes(q.ctes)
    ensures match ToDelete(d, q)
            case None => q.conds == []
            case Some(ts) =>
              && q.conds != []
              && ReadWritten(ts, params)
                 == Some(Written(Defined(d, q.ctes, 0), Deleting(q.table), Some(ItemsToks(d, q.conds, |CteParams(q.ctes)| + 1))))
  {
    hide ReadCommand, FilteredToks, CteParams, Defined, CalmCtes, ReadWritten, ItemsToks;
    if q.conds != [] {
      assert ("DELETE FROM " + q.table)[0] == 'D';
      DeleteCommand(q.table);
      FilteredReads(d, q, "DELETE FROM " + q.table, Deleting(q.table), params);
    }
  }

  // ----- UPDATE -----

  /** What each column of the SET list gets, `pos` parameters standing before the SET list and its numbers beginning at `k`. */
  function Gets(d: Dialect, data: seq<Assignment>, params: seq<SqlValue>, k: nat, pos: nat): (sets: seq<(string, SqlValue)>)
    requires k >= 1 && k - 1 + |data| <= |params| && pos + |data| <= |params|
    ensures |sets| == |data|
  {
    if data == [] then []
    else [(data[0].col, if d.Postgres? then params[k - 1] else params[pos])] + Gets(d, data[1..], params, k + 1, pos + 1)
  }

  lemma {:induction false} ColumnRead(col: string)
    ensures ReadColumn(Frag(col + " = ")) == Some(col) && col + " = " != " WHERE "
  {
    var s := col + " = ";
    assert s[|s| - 3..] == " = " && s[..|s| - 3] == col;
    assert s[|s| - 2] == '=' && " WHERE "[5] == 'E';
  }

  lemma {:induction false} SetsRead(d: Dialect, data: seq<Assignment>, params: seq<SqlValue>, k: nat, pos: nat, rest: seq<Tok>)
    requires k >= 1 && k - 1 + |data| <= |params| && pos + |data| <= |params|
    requires rest == [] || rest[0] == Frag(" WHERE ")
    ensures ReadSets(SetClauses(d, data, k) + rest, params, pos) == Some((Gets(d, data, params, k, pos), rest))
  {
    hide ReadColumn, ReadSets, SetClauses, Gets, BoundAt;
    FirstSet(d, data, params, k, pos);
    if data == [] {
      assert [] + rest == rest;
      NoSets(params, pos, rest);
    } else {
      var more := SetClauses(d, data[1..], k + 1) + rest;
      var sep := if |data| > 1 then ", " else "";
      var ph := Ph(Number(d, k), data[0].val);
      ColumnRead(data[0].col);
      SetRead(data[0].col, ph, sep, params, pos, more);
      assert SetClauses(d, data, k) + rest == [Frag(data[0].col + " = "), ph, Frag(sep)] + more;
      if |data| > 1 {
        SetsRead(d, data[1..], params, k + 1, pos + 1, rest);
      } else {
        FirstSet(d, data[1..], params, k + 1, pos + 1);
        assert more == rest;
        var first := (data[0].col, BoundAt(ph, params, pos).value);
        assert [first] + Gets(d, data[1..], params, k + 1, pos + 1) == [first];
      }
    }
  }

  lemma {:induction false} FirstSet(d: Dialect, data: seq<Assignment>, params: seq<SqlValue>, k: nat, pos: nat)
    requires k >= 1 && k - 1 + |data| <= |params| && pos + |data| <= |params|
    ensures data == [] ==> SetClauses(d, data, k) == [] && Gets(d, data, params, k, pos) == []
    ensures data != [] ==>
              var ph := Ph(Number(d, k), data[0].val);
              && SetClauses(d, data, k)
                 == [Frag(data[0].col + " = "), ph, Frag(if |data| > 1 then ", " else "")] + SetClauses(d, data[1..], k + 1)
              && BoundAt(ph, params, pos).Some?
              && Gets(d, data, params, k, pos)
                 == [(data[0].col, BoundAt(ph, params, pos).value)] + Gets(d, data[1..], params, k + 1, pos + 1)
  {
    if data != [] {
      var name, ph, sep := Frag(data[0].col + " = "), Ph(Number(d, k), data[0].val), Frag(if |data| > 1 then ", " else "");
      assert [name] + [ph] + [sep] == [name, ph, sep];
      assert BoundAt(ph, params, pos) == Some(if d.Postgres? then params[k - 1] else params[pos]);
    }
  }

  lemma {:induction false} NoSets(params: seq<SqlValue>, pos: nat, rest: seq<Tok>)
    requires rest == [] || rest[0] == Frag(" WHERE ")
    ensures ReadSets(rest, params, pos) == Some(([], rest))
  {
  }

  lemma {:induction false} SetRead(col: string, ph: Tok, sep: string, params: seq<SqlValue>, pos: nat, more: seq<Tok>)
    requires ReadColumn(Frag(col + " = ")) == Some(col) && col + " = " != " WHERE "
    requires BoundAt(ph, params, pos).Some? && (sep == "" || sep == ", ")
    ensures var first := (col, BoundAt(ph, params, pos).value);
            ReadSets([Frag(col + " = "), ph, Frag(sep)] + more, params, pos)
            == if sep == "" then Some(([first], more))
               else if ReadSets(more, params, pos + 1).None? then None
               else Some(([first] + ReadSets(more, params, pos + 1).value.0, ReadSets(more, params, pos + 1).value.1))
  {
    hide ReadColumn, BoundAt;
    assert ([Frag(col + " = "), ph, Frag(sep)] + more)[3..] == more;
  }

  lemma {:induction false} UpdateOf(ts: seq<Tok>, params: seq<SqlValue>, with: With, head: string, table: string, list: seq<Tok>,
                                    sets: seq<(string, SqlValue)>, filter: Option<seq<Tok>>, tests: seq<Tok>, before: seq<Tok>)
    requires ReadWith(ts) == Some(with) && with.rest == [Frag(head)] + (list + tests) && ts == before + with.rest
    requires ReadCommand(head) == Some(Updating(table, [])) && ReadSets(list + tests, params, |Slots(before)|) == Some((sets, tests))
    requires ReadFilter(tests) == Some(filter)
    ensures ReadWritten(ts, params) == Some(Written(with.defs, Updating(table, sets), filter))
  {
    hide ReadWith, ReadCommand, ReadFilter, Slots, ReadSets;
    assert with.rest[1..] == list + tests;
    assert ts[..|ts| - |with.rest|] == before;
  }

  lemma {:induction false} UpdateIs(d: Dialect, q: Query, data: seq<Assignment>)
    ensures UpdateToks(d, q, data)
         == CtesToks(d, q.ctes) + ([Frag("UPDATE " + q.table + " SET ")]
              + (SetClauses(d, data, 1) + WhereToks(d, q.conds, |CteParams(q.ctes)| + |data| + 1)))
  {
    hide CtesToks, WhereToks, CteParams, SetClauses;
  }

  lemma {:induction false} TestsStart(d: Dialect, conds: seq<Item>, off: nat)
    ensures WhereToks(d, conds, off) == [] || WhereToks(d, conds, off)[0] == Frag(" WHERE ")
  {
    hide ItemsToks;
  }

  lemma {:induction false} ParamsFit(q: Query, data: seq<Assignment>)
    ensures |CteParams(q.ctes)| + |data| <= |UpdateParams(q, data)|
  {
    hide CteParams, ItemsParams;
  }

  /** An UPDATE is refused without conditions; otherwise its columns, its table and its conditions are read back. */
  lemma {:induction false} UpdateReads(d: Dialect, q: Query, data: seq<Assignment>)
    requires CalmCtes(q.ctes)
    ensures |CteParams(q.ctes)| + |data| <= |UpdateParams(q, data)|
    ensures match ToUpdate(d, q, data)
            case None => q.conds == []
            case Some(ts) =>
              && q.conds != []
              && var n := |CteParams(q.ctes)|;
                 ReadWritten(ts, UpdateParams(q, data))
                 == Some(Written(Defined(d, q.ctes, 0), Updating(q.table, Gets(d, data, UpdateParams(q, data), 1, n)),
                                 Some(ItemsToks(d, q.conds, n + |data| + 1))))
  {
    hide CtesToks, WhereToks, CteParams, ReadWith, ReadWritten, ReadCommand, ReadFilter, Defined, AnyRecursive, CalmCtes, ItemsToks;
    hide UpdateToks, UpdateParams, Gets, SetClauses, ReadSets, Slots, Numbered;
    ParamsFit(q, data);
    if q.conds != [] {
      var n := |CteParams(q.ctes)|;
      var tests, list, head := WhereToks(d, q.conds, n + |data| + 1), SetClauses(d, data, 1), "UPDATE " + q.table + " SET ";
      UpdateIs(d, q, data);
      assert head[0] == 'U';
      NotWith(head);
      WithRead(d, q.ctes, [Frag(head)] + (list + tests));
      CtesSlots(d, q.ctes);
      CountNumbered(d, CteParams(q.ctes), 1);
      UpdateCommand(q.table);
      TestsStart(d, q.conds, n + |data| + 1);
      SetsRead(d, data, UpdateParams(q, data), 1, n, tests);
      FilterRead(d, q.conds, n + |data| + 1);
      UpdateOf(UpdateToks(d, q, data), UpdateParams(q, data),
               With(AnyRecursive(q.ctes), Defined(d, q.ctes, 0), [Frag(head)] + (list + tests)), head, q.table, list,
               Gets(d, data, UpdateParams(q, data), 1, n), Some(ItemsToks(d, q.conds, n + |data| + 1)), tests, CtesToks(d, q.ctes));
    }
  }

  lemma {:induction false} CountNumbered(d: Dialect, ps: seq<SqlValue>, off: nat)
    ensures |Numbered(d, ps, off)| == |ps|
  {
  }

  /** Every column with its own value. */
  function Own(data: seq<Assignment>): seq<(string, SqlValue)> {
    seq(|data|, i requires 0 <= i < |data| => (data[i].col, data[i].val))
  }

  lemma {:induction false} GetsAt(d: Dialect, data: seq<Assignment>, params: seq<SqlValue>, k: nat, pos: nat, i: nat)
    requires k >= 1 && k - 1 + |data| <= |params| && pos + |data| <= |params| && i < |data|
    ensures Gets(d, data, params, k, pos)[i] == (data[i].col, if d.Postgres? then params[k - 1 + i] else params[pos + i])
  {
    if i > 0 {
      GetsAt(d, data[1..], params, k + 1, pos + 1, i - 1);
    }
  }

  /**
   * With `?` every column gets its own value. With numbers it does exactly when the values bound by WITH, which take
   * the first numbers, happen to be the values that the columns should get.
   */
  lemma {:induction false} UpdateAssignsIff(d: Dialect, q: Query, data: seq<Assignment>)
    requires |CteParams(q.ctes)| + |data| <= |UpdateParams(q, data)|
    ensures Gets(d, data, UpdateParams(q, data), 1, |CteParams(q.ctes)|) == Own(data)
       <==> d.Qmark? || Assigned(data) <= CteParams(q.ctes) + Assigned(data)
  {
    hide CteParams, ItemsParams;
    var ctes := CteParams(q.ctes);
    var ps, n := UpdateParams(q, data), |ctes|;
    var got := Gets(d, data, ps, 1, n);
    forall i | 0 <= i < |data|
      ensures got[i] == Own(data)[i] <==> d.Qmark? || (ctes + Assigned(data))[i] == Assigned(data)[i]
    {
      GetsAt(d, data, ps, 1, n, i);
      assert ps[n + i] == Assigned(data)[i] && ps[i] == (ctes + Assigned(data))[i];
    }
    if d.Postgres? && Assigned(data) <= ctes + Assigned(data) {
      assert forall i :: 0 <= i < |data| ==> Assigned(data)[i] == (ctes + Assigned(data))[i];
    }
    if got != Own(data) {
      assert exists i :: 0 <= i < |data| && got[i] != Own(data)[i];
    }
  }

  /** Without values bound by WITH every column gets its own value, in either dialect. */
  lemma {:induction false} UpdateAssigns(d: Dialect, q: Query, data: seq<Assignment>)
    requires CalmCtes(q.ctes) && q.conds != [] && CteParams(q.ctes) == []
    ensures ToUpdate(d, q, data).Some?
    ensures ReadWritten(ToUpdate(d, q, data).value, UpdateParams(q, data))
         == Some(Written(Defined(d, q.ctes, 0), Updating(q.table, Own(data)), Some(ItemsToks(d, q.conds, |data| + 1))))
  {
    hide CteParams, ReadWritten, Defined, CalmCtes, ItemsToks, UpdateParams, Gets;
    UpdateReads(d, q, data);
    UpdateAssignsIff(d, q, data);
    assert [] + Assigned(data) == Assigned(data);
  }
}
