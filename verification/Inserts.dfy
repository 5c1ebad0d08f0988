/** `InsertBuilder`: inserts and upserts, numbered across VALUES and DO UPDATE SET, and the write that invalidates. */
module Inserts {
  import Text
  import opened Values
  import opened Tokens
  import opened Leaves
  import QueryCache

  datatype ConflictSet = Value(v: SqlValue) | Excluded

  datatype OnConflict = DoNothing | DoUpdate(target: seq<string>, sets: seq<(string, ConflictSet)>)

  function Quote(name: string): string {
    "\"" + name + "\""
  }

  function Quoted(cols: seq<string>): seq<string> {
    seq(|cols|, i requires 0 <= i < |cols| => Quote(cols[i]))
  }

  function TrimLeft(s: string): (t: string)
    ensures t == "" || t[0] != '"'
  {
    if s != "" && s[0] == '"' then TrimLeft(s[1..]) else s
  }

  function TrimRight(s: string): (t: string)
    ensures t <= s && (t == "" || t[|t| - 1] != '"')
  {
    if s != "" && s[|s| - 1] == '"' then TrimRight(s[..|s| - 1]) else s
  }

  /** A column without the quotes around it, however many there are. */
  function Bare(col: string): string {
    TrimRight(TrimLeft(col))
  }

  function ExcludedText(col: string): string {
    col + " = EXCLUDED." + Quote(Bare(col))
  }

  lemma {:induction false} BareIff(name: string)
    ensures Bare(Quote(name)) == name <==> name == "" || (name[0] != '"' && name[|name| - 1] != '"')
  {
    var rest := name + "\"";
    assert Quote(name)[1..] == rest && rest[..|name|] == name;
    if name == "" {
      assert rest[1..] == "" && TrimLeft(rest) == "";
    } else if name[0] != '"' {
      assert TrimLeft(rest) == rest && TrimRight(rest) == TrimRight(name);
    }
  }

  /** A column is set to its own excluded value exactly when its name neither begins nor ends with a quote. */
  lemma {:induction false} ExcludedIff(name: string)
    ensures ExcludedText(Quote(name)) == Quote(name) + " = EXCLUDED." + Quote(name)
       <==> name == "" || (name[0] != '"' && name[|name| - 1] != '"')
  {
    hide Bare;
    var bare, head := Bare(Quote(name)), Quote(name) + " = EXCLUDED.\"";
    BareIff(name);
    assert ExcludedText(Quote(name)) == head + bare + "\"";
    assert Quote(name) + " = EXCLUDED." + Quote(name) == head + name + "\"";
    if head + bare + "\"" == head + name + "\"" {
      assert bare == (head + bare + "\"")[|head|..|head| + |bare|];
      assert name == (head + name + "\"")[|head|..|head| + |name|];
    }
  }

  function SetParams(sets: seq<(string, ConflictSet)>): seq<SqlValue> {
    if sets == [] then []
    else (if sets[0].1.Value? then [sets[0].1.v] else []) + SetParams(sets[1..])
  }

  function OneSet(set1: (string, ConflictSet), n: nat): seq<Tok> {
    if set1.1.Value? then [Frag(set1.0 + " = ")] + [Ph(n, set1.1.v)]
    else [Frag(ExcludedText(set1.0))]
  }

  /** The SET list after `k` parameters have been bound. */
  function SetToks(sets: seq<(string, ConflictSet)>, k: nat): seq<Tok> {
    if sets == [] then []
    else
      OneSet(sets[0], k + 1) + [Frag(if |sets| > 1 then ", " else "")]
      + SetToks(sets[1..], if sets[0].1.Value? then k + 1 else k)
  }

  function ConflictParams(c: Option<OnConflict>): seq<SqlValue> {
    if c.Some? && c.value.DoUpdate? then SetParams(c.value.sets) else []
  }

  function ConflictToks(c: Option<OnConflict>, k: nat): seq<Tok> {
    match c
    case None => []
    case Some(DoNothing) => [Frag(" ON CONFLICT DO NOTHING")]
    case Some(DoUpdate(target, sets)) =>
      [Frag(" ON CONFLICT (" + Text.Join(target, ", ") + ") DO UPDATE SET ")] + SetToks(sets, k)
  }

  function ReturningText(cols: Option<seq<string>>): string {
    match cols
    case None => ""
    case Some(cs) => if cs == [] then " RETURNING *" else " RETURNING " + Text.Join(cs, ", ")
  }

  function InsertToks(table: string, columns: seq<string>, values: seq<SqlValue>, conflict: Option<OnConflict>,
                      returning: Option<seq<string>>): seq<Tok>
  {
    [Frag("INSERT INTO \"" + table + "\" (" + Text.Join(Quoted(columns), ", ") + ") VALUES (")]
    + ListToks(Postgres, values, 1) + [Frag(")")] + ConflictToks(conflict, |values|) + [Frag(ReturningText(returning))]
  }

  // ----- What the builder's methods add -----

  function AsExcluded(cols: seq<string>): seq<(string, ConflictSet)> {
    seq(|cols|, i requires 0 <= i < |cols| => (Quote(cols[i]), Excluded))
  }

  function AsValues(pairs: seq<(string, SqlValue)>): seq<(string, ConflictSet)> {
    seq(|pairs|, i requires 0 <= i < |pairs| => (Quote(pairs[i].0), Value(pairs[i].1)))
  }

  /** Entries are added to a conflict clause with a target, and to no other. */
  function WithSets(c: Option<OnConflict>, sets: seq<(string, ConflictSet)>): Option<OnConflict> {
    if c.Some? && c.value.DoUpdate? then Some(DoUpdate(c.value.target, c.value.sets + sets)) else c
  }

  // ----- Numbering -----

  lemma {:induction false} OneSetSlots(set1: (string, ConflictSet), n: nat)
    ensures Slots(OneSet(set1, n)) == Numbered(Postgres, if set1.1.Value? then [set1.1.v] else [], n)
  {
    var slot := Ph(n, if set1.1.Value? then set1.1.v else Null);
    SlotsCat([Frag(set1.0 + " = ")], [slot]);
    assert Slots([slot]) == [slot] && Slots([Frag(set1.0 + " = ")]) == [];
    assert Number(Postgres, n + 0) == n;
  }

  lemma {:induction false} SetSlots(sets: seq<(string, ConflictSet)>, k: nat)
    ensures Slots(SetToks(sets, k)) == Numbered(Postgres, SetParams(sets), k + 1)
  {
    hide OneSet, Numbered, Number;
    NothingNumbered(Postgres, k + 1);
    if sets != [] {
      var k' := if sets[0].1.Value? then k + 1 else k;
      var sep := [Frag(if |sets| > 1 then ", " else "")];
      OneSetSlots(sets[0], k + 1);
      SetSlots(sets[1..], k');
      SlotsCat(OneSet(sets[0], k + 1) + sep, SetToks(sets[1..], k'));
      SlotsCat(OneSet(sets[0], k + 1), sep);
      NumberedCat(Postgres, if sets[0].1.Value? then [sets[0].1.v] else [], SetParams(sets[1..]), k + 1);
    }
  }

  lemma {:induction false} ConflictSlots(c: Option<OnConflict>, k: nat)
    ensures Slots(ConflictToks(c, k)) == Numbered(Postgres, ConflictParams(c), k + 1)
  {
    if c.Some? && c.value.DoUpdate? {
      var head := [Frag(" ON CONFLICT (" + Text.Join(c.value.target, ", ") + ") DO UPDATE SET ")];
      hide SetToks, SetParams, Text.Join;
      SetSlots(c.value.sets, k);
      SlotsCat(head, SetToks(c.value.sets, k));
    }
  }

  /** An upsert numbers its inserted values first and its SET values after them, without a gap. */
  lemma {:induction false} InsertNumbering(table: string, columns: seq<string>, values: seq<SqlValue>,
                                           conflict: Option<OnConflict>, returning: Option<seq<string>>)
    ensures Slots(InsertToks(table, columns, values, conflict, returning))
         == Numbered(Postgres, values + ConflictParams(conflict), 1)
  {
    hide ConflictToks, ConflictParams, ListToks, Numbered, ReturningText, Text.Join;
    var head := [Frag("INSERT INTO \"" + table + "\" (" + Text.Join(Quoted(columns), ", ") + ") VALUES (")];
    var list, sets := ListToks(Postgres, values, 1), ConflictToks(conflict, |values|);
    ListSlots(Postgres, values, 1);
    ConflictSlots(conflict, |values|);
    SlotsCat(head + list + [Frag(")")] + sets, [Frag(ReturningText(returning))]);
    SlotsCat(head + list + [Frag(")")], sets);
    SlotsWrap(head, list, [Frag(")")]);
    NumberedCat(Postgres, values, ConflictParams(conflict), 1);
  }

  // ----- The builder as written -----

  class InsertBuilder {
    const table: string
    var columns: seq<string>
    var values: seq<SqlValue>
    var onConflict: Option<OnConflict>
    var returningCols: Option<seq<string>>

    constructor (table: string)
      ensures this.table == table && columns == [] && values == [] && onConflict == None && returningCols == None
    {
      this.table := table;
      columns, values, onConflict, returningCols := [], [], None, None;
    }

    method AddValues(pairs: seq<(string, SqlValue)>)
      modifies this`columns, this`values
      ensures |columns| == |old(columns)| + |pairs| && |values| == |old(values)| + |pairs|
      ensures columns[..|old(columns)|] == old(columns) && values[..|old(values)|] == old(values)
      ensures forall i :: 0 <= i < |pairs| ==>
                columns[|old(columns)| + i] == pairs[i].0 && values[|old(values)| + i] == pairs[i].1
    {
      for k := 0 to |pairs|
        invariant |columns| == |old(columns)| + k && |values| == |old(values)| + k
        invariant columns[..|old(columns)|] == old(columns) && values[..|old(values)|] == old(values)
        invariant forall i :: 0 <= i < k ==>
                    columns[|old(columns)| + i] == pairs[i].0 && values[|old(values)| + i] == pairs[i].1
      {
        columns := columns + [pairs[k].0];
        values := values + [pairs[k].1];
      }
    }

    method DoNothingOnConflict()
      modifies this`onConflict
      ensures onConflict == Some(DoNothing)
    {
      onConflict := Some(DoNothing);
    }

    method OnConflictOf(target: seq<string>)
      modifies this`onConflict
      ensures onConflict == Some(DoUpdate(Quoted(target), []))
    {
      onConflict := Some(DoUpdate(Quoted(target), []));
    }

    /** SET entries are kept only once a conflict target has been named. */
    method DoUpdateExcluded(cols: seq<string>)
      modifies this`onConflict
      ensures onConflict == WithSets(old(onConflict), AsExcluded(cols))
    {
      if onConflict.Some? && onConflict.value.DoUpdate? {
        ghost var start := onConflict;
        assert onConflict.value.sets + AsExcluded(cols[..0]) == onConflict.value.sets;
        for k := 0 to |cols|
          invariant onConflict == WithSets(start, AsExcluded(cols[..k])) && onConflict.Some? && onConflict.value.DoUpdate?
        {
          ghost var sets := start.value.sets;
          assert sets + AsExcluded(cols[..k + 1]) == sets + AsExcluded(cols[..k]) + [(Quote(cols[k]), Excluded)];
          onConflict := Some(DoUpdate(onConflict.value.target, onConflict.value.sets + [(Quote(cols[k]), Excluded)]));
        }
        assert cols[..|cols|] == cols;
      }
    }

    method DoUpdateValues(pairs: seq<(string, SqlValue)>)
      modifies this`onConflict
      ensures onConflict == WithSets(old(onConflict), AsValues(pairs))
    {
      if onConflict.Some? && onConflict.value.DoUpdate? {
        ghost var start := onConflict;
        assert onConflict.value.sets + AsValues(pairs[..0]) == onConflict.value.sets;
        for k := 0 to |pairs|
          invariant onConflict == WithSets(start, AsValues(pairs[..k])) && onConflict.Some? && onConflict.value.DoUpdate?
        {
          ghost var sets := start.value.sets;
          assert sets + AsValues(pairs[..k + 1]) == sets + AsValues(pairs[..k]) + [(Quote(pairs[k].0), Value(pairs[k].1))];
          onConflict := Some(DoUpdate(onConflict.value.target,
                                      onConflict.value.sets + [(Quote(pairs[k].0), Value(pairs[k].1))]));
        }
        assert pairs[..|pairs|] == pairs;
      }
    }

    method Returning()
      modifies this`returningCols
      ensures returningCols == Some([])
    {
      returningCols := Some([]);
    }

    method ReturningCols(cols: seq<string>)
      modifies this`returningCols
      ensures returningCols == Some(Quoted(cols))
    {
      returningCols := Some(Quoted(cols));
    }

    method ToSql() returns (sql: seq<Tok>, params: seq<SqlValue>)
      ensures sql == InsertToks(table, columns, values, onConflict, returningCols)
      ensures params == values + ConflictParams(onConflict)
    {
      hide ListToks, Text.Join, SetToks, SetParams, OneSet;
      params := values;
      sql := [Frag("INSERT INTO \"" + table + "\" (" + Text.Join(Quoted(columns), ", ") + ") VALUES (")]
        + ListToks(Postgres, values, 1) + [Frag(")")];
      match onConflict {
        case None =>
        case Some(DoNothing) => sql := sql + [Frag(" ON CONFLICT DO NOTHING")];
        case Some(DoUpdate(target, sets)) =>
          var parts;
          parts, params := WriteSets(sets, params);
          sql := sql + ([Frag(" ON CONFLICT (" + Text.Join(target, ", ") + ") DO UPDATE SET ")] + parts);
      }
      sql := sql + [Frag(ReturningText(returningCols))];
    }

    /** A successful insert invalidates its table; a failed one does not. */
    method Execute<V>(cache: QueryCache.Cache<V>, succeeds: bool) returns (ok: bool)
      modifies cache
      ensures ok == succeeds
      ensures cache.entries == if ok then QueryCache.Retained(old(cache.entries), table) else old(cache.entries)
    {
      ok := succeeds;
      if ok {
        cache.InvalidateTable(table);
      }
    }
  }

  lemma {:induction false} NextSet(sets: seq<(string, ConflictSet)>, k: nat, n: nat, done: seq<Tok>, params: seq<SqlValue>)
    requires k < |sets|
    ensures var v := sets[k].1;
            && done + OneSet(sets[k], n + 1) + [Frag(if k + 1 < |sets| then ", " else "")]
               + SetToks(sets[k + 1..], if v.Value? then n + 1 else n)
               == done + SetToks(sets[k..], n)
            && (if v.Value? then params + [v.v] else params) + SetParams(sets[k + 1..]) == params + SetParams(sets[k..])
  {
    hide OneSet;
    assert sets[k..][1..] == sets[k + 1..];
  }

  lemma {:induction false} NoSets(n: nat)
    ensures SetToks([], n) == [] && SetParams([]) == []
  {
  }

  method WriteSets(sets: seq<(string, ConflictSet)>, params: seq<SqlValue>) returns (parts: seq<Tok>, all: seq<SqlValue>)
    ensures parts == SetToks(sets, |params|) && all == params + SetParams(sets)
  {
    hide SetToks, SetParams;
    parts, all := [], params;
    assert sets[0..] == sets;
    for k := 0 to |sets|
      invariant parts + SetToks(sets[k..], |all|) == SetToks(sets, |params|)
      invariant all + SetParams(sets[k..]) == params + SetParams(sets)
    {
      NextSet(sets, k, |all|, parts, all);
      match sets[k].1 {
        case Excluded => parts := parts + [Frag(ExcludedText(sets[k].0))];
        case Value(v) =>
          all := all + [v];
          parts := parts + ([Frag(sets[k].0 + " = ")] + [Ph(|all|, v)]);
      }
      parts := parts + [Frag(if k + 1 < |sets| then ", " else "")];
    }
    assert sets[|sets|..] == [];
    NoSets(|all|);
  }
}
