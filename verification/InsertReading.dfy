/** The INSERT that was written, read back: which column gets which bound value. */
module InsertReading {
  import opened Text
  import opened Values
  import opened Tokens
  import opened Leaves
  import opened Inserts

  /** A value bound to the statement, or the value that the refused row has in a column. */
  datatype Source = Bound(v: SqlValue) | Proposed(col: string)

  datatype Action = Refuse | Skip | Overwrite(target: seq<string>, sets: seq<(string, Source)>)

  /** No `returning` columns stand for all of them. */
  datatype Statement = Statement(table: string, row: seq<(string, SqlValue)>, action: Action, returning: Option<seq<string>>)

  // ----- Reading names -----

  function After(s: string, word: string): Option<string> {
    if word <= s then Some(s[|word|..]) else None
  }

  function ToQuote(s: string): (r: Option<(string, string)>)
    ensures r.Some? ==> |r.value.1| < |s|
  {
    if s == "" then None
    else if s[0] == '"' then Some(("", s[1..]))
    else
      match ToQuote(s[1..])
      case None => None
      case Some(r) => Some(([s[0]] + r.0, r.1))
  }

  /** A name between double quotes, and what follows it. */
  function ReadName(s: string): (r: Option<(string, string)>)
    ensures r.Some? ==> |r.value.1| < |s|
  {
    if s != "" && s[0] == '"' then ToQuote(s[1..]) else None
  }

  /** Names between commas, at least one. */
  function ReadNames(s: string): Option<(seq<string>, string)>
    decreases |s|
  {
    match ReadName(s)
    case None => None
    case Some(first) =>
      if ", " <= first.1 then
        match ReadNames(first.1[2..])
        case None => None
        case Some(more) => Some(([first.0] + more.0, more.1))
      else Some(([first.0], first.1))
  }

  // ----- Reading the parts of a statement -----

  /** The value that is bound to a placeholder: the one at its number. */
  function BoundTo(t: Tok, params: seq<SqlValue>): Option<SqlValue> {
    if t.Ph? && 0 < t.n <= |params| then Some(params[t.n - 1]) else None
  }

  function ReadValues(ts: seq<Tok>, params: seq<SqlValue>): (r: Option<(seq<SqlValue>, seq<Tok>)>)
    decreases |ts|
  {
    if ts == [] then None
    else
      match BoundTo(ts[0], params)
      case None => None
      case Some(v) =>
        if |ts| > 1 && ts[1] == Frag(", ") then
          match ReadValues(ts[2..], params)
          case None => None
          case Some(more) => Some(([v] + more.0, more.1))
        else Some(([v], ts[1..]))
  }

  /** The table and the columns. */
  function ReadHead(s: string): Option<(string, seq<string>)> {
    match After(s, "INSERT INTO ")
    case None => None
    case Some(a) =>
      match ReadName(a)
      case None => None
      case Some(table) =>
        match After(table.1, " (")
        case None => None
        case Some(b) =>
          match ReadNames(b)
          case None => None
          case Some(cols) => if cols.1 == ") VALUES (" then Some((table.0, cols.0)) else None
  }

  /** One entry of a SET list: a column with a bound value or with the proposed one. */
  function ReadSet(ts: seq<Tok>, params: seq<SqlValue>): (r: Option<((string, Source), seq<Tok>)>)
    ensures r.Some? ==> |r.value.1| < |ts|
  {
    if ts == [] || !ts[0].Frag? then None
    else
      match ReadName(ts[0].s)
      case None => None
      case Some(col) =>
        if col.1 == " = " && |ts| > 1 then
          match BoundTo(ts[1], params)
          case None => None
          case Some(v) => Some(((col.0, Bound(v)), ts[2..]))
        else
          match After(col.1, " = EXCLUDED.")
          case None => None
          case Some(a) =>
            match ReadName(a)
            case None => None
            case Some(from) => if from.1 == "" then Some(((col.0, Proposed(from.0)), ts[1..])) else None
  }

  function ReadSets(ts: seq<Tok>, params: seq<SqlValue>): Option<(seq<(string, Source)>, seq<Tok>)>
    decreases |ts|
  {
    match ReadSet(ts, params)
    case None => None
    case Some(first) =>
      if first.1 != [] && first.1[0] == Frag(", ") then
        match ReadSets(first.1[1..], params)
        case None => None
        case Some(more) => Some(([first.0] + more.0, more.1))
      else if first.1 != [] && first.1[0] == Frag("") then Some(([first.0], first.1[1..]))
      else None
  }

  function ReadTarget(s: string): Option<seq<string>> {
    match After(s, " ON CONFLICT (")
    case None => None
    case Some(a) =>
      match ReadNames(a)
      case None => None
      case Some(cols) => if cols.1 == ") DO UPDATE SET " then Some(cols.0) else None
  }

  function ReadAction(ts: seq<Tok>, params: seq<SqlValue>): Option<(Action, seq<Tok>)> {
    if ts == [] || !ts[0].Frag? then None
    else if ts[0].s == " ON CONFLICT DO NOTHING" then Some((Skip, ts[1..]))
    else if " ON CONFLICT" <= ts[0].s then
      match ReadTarget(ts[0].s)
      case None => None
      case Some(target) =>
        match ReadSets(ts[1..], params)
        case None => None
        case Some(sets) => Some((Overwrite(target, sets.0), sets.1))
    else Some((Refuse, ts))
  }

  /** The RETURNING clause, if there is one, ends the statement. */
  function ReadReturning(ts: seq<Tok>): Option<Option<seq<string>>> {
    if |ts| != 1 || !ts[0].Frag? then None
    else if ts[0].s == "" then Some(None)
    else if ts[0].s == " RETURNING *" then Some(Some([]))
    else
      match After(ts[0].s, " RETURNING ")
      case None => None
      case Some(a) =>
        match ReadNames(a)
        case None => None
        case Some(cols) => if cols.1 == "" then Some(Some(cols.0)) else None
  }

  function Pairs(cols: seq<string>, vals: seq<SqlValue>): seq<(string, SqlValue)>
    requires |cols| == |vals|
  {
    seq(|cols|, i requires 0 <= i < |cols| => (cols[i], vals[i]))
  }

  /** The statement with its parameters: the i-th column gets what is bound to the i-th placeholder of VALUES. */
  function ReadInsert(ts: seq<Tok>, params: seq<SqlValue>): Option<Statement> {
    if ts == [] || !ts[0].Frag? then None
    else
      match ReadHead(ts[0].s)
      case None => None
      case Some(head) =>
        match ReadValues(ts[1..], params)
        case None => None
        case Some(vals) =>
          if |vals.0| != |head.1| || vals.1 == [] || vals.1[0] != Frag(")") then None
          else
            match ReadAction(vals.1[1..], params)
            case None => None
            case Some(action) =>
              match ReadReturning(action.1)
              case None => None
              case Some(returning) => Some(Statement(head.0, Pairs(head.1, vals.0), action.0, returning))
  }

  // ----- What was written is read -----

  predicate NoQuote(s: string) {
    '"' !in s
  }

  predicate NoQuotes(ns: seq<string>) {
    forall i :: 0 <= i < |ns| ==> NoQuote(ns[i])
  }

  lemma {:induction false} ToQuoteOf(n: string, rest: string)
    requires NoQuote(n)
    ensures ToQuote(n + "\"" + rest) == Some((n, rest))
  {
    var s := n + "\"" + rest;
    if n == "" {
      assert s[1..] == rest;
    } else {
      ToQuoteOf(n[1..], rest);
      assert s[0] == n[0] && s[1..] == n[1..] + "\"" + rest;
      assert [n[0]] + n[1..] == n;
    }
  }

  lemma {:induction false} NameRead(n: string, rest: string)
    requires NoQuote(n)
    ensures ReadName(Quote(n) + rest) == Some((n, rest))
  {
    ToQuoteOf(n, rest);
    assert (Quote(n) + rest)[1..] == n + "\"" + rest;
  }

  lemma {:induction false} NamesRead(ns: seq<string>, rest: string)
    requires NoQuotes(ns) && ns != [] && (rest == "" || rest[0] != ',')
    ensures ReadNames(Join(Quoted(ns), ", ") + rest) == Some((ns, rest))
  {
    hide ReadName, Join, Quote, Quoted;
    assert !(", " <= rest);
    if |ns| == 1 {
      OneName(ns);
      NameRead(ns[0], rest);
      assert [ns[0]] == ns;
    } else {
      var more := Join(Quoted(ns[1..]), ", ") + rest;
      NamesRead(ns[1..], rest);
      FirstName(ns);
      assert Join(Quoted(ns), ", ") + rest == Quote(ns[0]) + (", " + more);
      NameRead(ns[0], ", " + more);
      assert (", " + more)[2..] == more;
      assert [ns[0]] + ns[1..] == ns;
    }
  }

  lemma {:induction false} OneName(ns: seq<string>)
    requires |ns| == 1
    ensures Join(Quoted(ns), ", ") == Quote(ns[0])
  {
  }

  lemma {:induction false} FirstName(ns: seq<string>)
    requires |ns| > 1
    ensures Join(Quoted(ns), ", ") == Quote(ns[0]) + ", " + Join(Quoted(ns[1..]), ", ")
  {
    assert Quoted(ns)[1..] == Quoted(ns[1..]);
  }

  lemma {:induction false} WordRead(word: string, rest: string)
    ensures After(word + rest, word) == Some(rest)
  {
    assert (word + rest)[|word|..] == rest;
  }

  lemma {:induction false} HeadRead(table: string, cols: seq<string>)
    requires NoQuote(table) && NoQuotes(cols) && cols != []
    ensures ReadHead("INSERT INTO \"" + table + "\" (" + Join(Quoted(cols), ", ") + ") VALUES (") == Some((table, cols))
  {
    var tail := ") VALUES (";
    var names := Join(Quoted(cols), ", ") + tail;
    var s := "INSERT INTO \"" + table + "\" (" + Join(Quoted(cols), ", ") + tail;
    assert s == "INSERT INTO " + (Quote(table) + (" (" + names));
    WordRead("INSERT INTO ", Quote(table) + (" (" + names));
    NameRead(table, " (" + names);
    WordRead(" (", names);
    NamesRead(cols, tail);
  }

  lemma {:induction false} ValuesRead(vals: seq<SqlValue>, off: nat, rest: seq<Tok>, params: seq<SqlValue>)
    requires vals != [] && off >= 1 && off - 1 + |vals| <= |params|
    requires params[off - 1..off - 1 + |vals|] == vals
    requires rest == [] || rest[0] != Frag(", ")
    ensures ReadValues(ListToks(Postgres, vals, off) + rest, params) == Some((vals, rest))
  {
    var ts := ListToks(Postgres, vals, off) + rest;
    assert params[off - 1] == vals[0];
    if |vals| == 1 {
      assert ts == [Ph(off, vals[0])] + rest && ts[1..] == rest;
      assert [vals[0]] == vals;
    } else {
      var more := ListToks(Postgres, vals[1..], off + 1) + rest;
      assert params[off..off + |vals| - 1] == vals[1..];
      ValuesRead(vals[1..], off + 1, rest, params);
      assert ts == [Ph(off, vals[0])] + [Frag(", ")] + more;
      assert ts[2..] == more && [vals[0]] + vals[1..] == vals;
    }
  }

  // ----- The conflict clause -----

  /** The entries of a SET list, as the builder's methods write them. */
  function WrittenSets(sets: seq<(string, Source)>): (w: seq<(string, ConflictSet)>)
    ensures |w| == |sets|
  {
    seq(|sets|, i requires 0 <= i < |sets| =>
      (Quote(sets[i].0), if sets[i].1.Bound? then Value(sets[i].1.v) else Excluded))
  }

  /** Every column is set to a value, or to its own proposed one; no name holds a quote. */
  predicate OwnSets(sets: seq<(string, Source)>) {
    forall i :: 0 <= i < |sets| ==> NoQuote(sets[i].0) && (sets[i].1.Proposed? ==> sets[i].1.col == sets[i].0)
  }

  lemma {:induction false} ExcludedOwn(n: string)
    requires NoQuote(n)
    ensures ExcludedText(Quote(n)) == Quote(n) + (" = EXCLUDED." + Quote(n))
  {
    hide ExcludedText;
    if n != "" {
      assert n[0] in n && n[|n| - 1] in n;
    }
    ExcludedIff(n);
  }

  lemma {:induction false} SetRead(set1: (string, Source), n: nat, rest: seq<Tok>, params: seq<SqlValue>)
    requires OwnSets([set1]) && n >= 1
    requires set1.1.Bound? ==> n <= |params| && params[n - 1] == set1.1.v
    ensures ReadSet(OneSet(WrittenSets([set1])[0], n) + rest, params) == Some((set1, rest))
  {
    hide ExcludedText, ReadName;
    assert [set1][0] == set1;
    var col := set1.0;
    if set1.1.Bound? {
      NameRead(col, " = ");
      var ts := [Frag(Quote(col) + " = ")] + [Ph(n, set1.1.v)] + rest;
      assert ts[2..] == rest;
    } else {
      ExcludedOwn(col);
      NameRead(col, " = EXCLUDED." + Quote(col));
      WordRead(" = EXCLUDED.", Quote(col));
      assert Quote(col) + "" == Quote(col);
      NameRead(col, "");
      assert ([Frag(ExcludedText(Quote(col)))] + rest)[1..] == rest;
    }
  }

  function SourceParams(sets: seq<(string, Source)>): seq<SqlValue> {
    SetParams(WrittenSets(sets))
  }

  lemma {:induction false} SetsSplit(sets: seq<(string, Source)>, k: nat)
    requires sets != []
    ensures var w, bound := WrittenSets(sets), sets[0].1.Bound?;
            && |w| == |sets| && w[1..] == WrittenSets(sets[1..]) && w[0] == WrittenSets([sets[0]])[0]
            && SetToks(w, k) == OneSet(w[0], k + 1) + ([Frag(if |sets| > 1 then ", " else "")]
                                + SetToks(WrittenSets(sets[1..]), if bound then k + 1 else k))
            && SourceParams(sets) == (if bound then [sets[0].1.v] else []) + SourceParams(sets[1..])
  {
    hide OneSet;
    assert WrittenSets(sets)[1..] == WrittenSets(sets[1..]);
  }

  lemma {:induction false} SetsRead(sets: seq<(string, Source)>, k: nat, rest: seq<Tok>, params: seq<SqlValue>)
    requires OwnSets(sets) && sets != [] && k + |SourceParams(sets)| <= |params|
    requires params[k..k + |SourceParams(sets)|] == SourceParams(sets)
    ensures ReadSets(SetToks(WrittenSets(sets), k) + rest, params) == Some((sets, rest))
    decreases |sets|
  {
    hide ReadSet, OneSet, SetToks, SourceParams, WrittenSets;
    var bound := sets[0].1.Bound?;
    var k' := if bound then k + 1 else k;
    SetsSplit(sets, k);
    var ps := SourceParams(sets);
    if bound {
      assert params[k] == ps[0] == sets[0].1.v;
    }
    var sep := [Frag(if |sets| > 1 then ", " else "")];
    var more := SetToks(WrittenSets(sets[1..]), k') + rest;
    assert SetToks(WrittenSets(sets), k) + rest == OneSet(WrittenSets([sets[0]])[0], k + 1) + (sep + more);
    assert OwnSets([sets[0]]) && [sets[0]] + sets[1..] == sets;
    SetRead(sets[0], k + 1, sep + more, params);
    assert (sep + more)[1..] == more;
    if |sets| > 1 {
      var ps' := SourceParams(sets[1..]);
      assert params[k'..k' + |ps'|] == ps' by {
        assert ps' == ps[k' - k..];
      }
      SetsRead(sets[1..], k', rest, params);
    } else {
      NoSetToks(sets[1..], k');
      assert more == rest && (sep + more)[0] == Frag("") && |""| != |", "|;
      assert [sets[0]] == sets;
    }
  }

  lemma {:induction false} NoSetToks(sets: seq<(string, Source)>, k: nat)
    requires sets == []
    ensures SetToks(WrittenSets(sets), k) == []
  {
  }

  /** The conflict clause that the builder's methods make for an action. */
  function Written(a: Action): Option<OnConflict> {
    match a
    case Refuse => None
    case Skip => Some(DoNothing)
    case Overwrite(target, sets) => Some(DoUpdate(Quoted(target), WrittenSets(sets)))
  }

  predicate Named(a: Action) {
    a.Overwrite? ==> a.target != [] && NoQuotes(a.target) && a.sets != [] && OwnSets(a.sets)
  }

  /** What follows an INSERT without a conflict clause. */
  predicate NoAction(rest: seq<Tok>) {
    rest != [] && rest[0].Frag? && !(" ON CONFLICT" <= rest[0].s)
  }

  lemma {:induction false} ActionRead(a: Action, k: nat, rest: seq<Tok>, params: seq<SqlValue>)
    requires Named(a) && NoAction(rest)
    requires k + |ConflictParams(Written(a))| <= |params|
    requires params[k..k + |ConflictParams(Written(a))|] == ConflictParams(Written(a))
    ensures ReadAction(ConflictToks(Written(a), k) + rest, params) == Some((a, rest))
  {
    hide ReadSets, ReadTarget, SetToks, SetParams, WrittenSets;
    match a
    case Refuse => assert [] + rest == rest;
    case Skip => assert ([Frag(" ON CONFLICT DO NOTHING")] + rest)[1..] == rest;
    case Overwrite(target, sets) =>
      var names := Join(Quoted(target), ", ") + ") DO UPDATE SET ";
      var text := " ON CONFLICT (" + Join(Quoted(target), ", ") + ") DO UPDATE SET ";
      TargetRead(target);
      var list := SetToks(WrittenSets(sets), k);
      assert ([Frag(text)] + list + rest)[1..] == list + rest;
      SetsRead(sets, k, rest, params);
      ConflictWord(names);
      assert text == " ON CONFLICT (" + names;
  }

  lemma {:induction false} ConflictWord(names: string)
    ensures " ON CONFLICT" <= " ON CONFLICT (" + names && " ON CONFLICT (" + names != " ON CONFLICT DO NOTHING"
  {
    assert (" ON CONFLICT (" + names)[13] == '(' && " ON CONFLICT DO NOTHING"[13] == 'D';
  }

  lemma {:induction false} TargetRead(target: seq<string>)
    requires NoQuotes(target) && target != []
    ensures ReadTarget(" ON CONFLICT (" + Join(Quoted(target), ", ") + ") DO UPDATE SET ") == Some(target)
  {
    var names := Join(Quoted(target), ", ") + ") DO UPDATE SET ";
    assert " ON CONFLICT (" + Join(Quoted(target), ", ") + ") DO UPDATE SET " == " ON CONFLICT (" + names;
    WordRead(" ON CONFLICT (", names);
    NamesRead(target, ") DO UPDATE SET ");
  }

  // ----- RETURNING -----

  /** `returning` asks for all columns by naming none. */
  function WrittenReturning(r: Option<seq<string>>): Option<seq<string>> {
    if r.None? then None else Some(Quoted(r.value))
  }

  lemma {:induction false} ReturningRead(r: Option<seq<string>>)
    requires r.Some? ==> NoQuotes(r.value)
    ensures ReadReturning([Frag(ReturningText(WrittenReturning(r)))]) == Some(r)
    ensures NoAction([Frag(ReturningText(WrittenReturning(r)))])
  {
    if r.Some? {
      var names := Join(Quoted(r.value), ", ");
      NotConflict("*");
      if r.value != [] {
        NamesRead(r.value, "");
        assert names + "" == names;
        WordRead(" RETURNING ", names);
        FirstIsQuote(r.value);
        NotConflict(names);
      }
    }
  }

  lemma {:induction false} NotConflict(rest: string)
    ensures " RETURNING " + rest != "" && !(" ON CONFLICT" <= " RETURNING " + rest)
  {
    assert (" RETURNING " + rest)[1] == 'R' && " ON CONFLICT"[1] == 'O';
  }

  lemma {:induction false} FirstIsQuote(ns: seq<string>)
    requires ns != []
    ensures var names := Join(Quoted(ns), ", "); names != "" && names[0] == '"'
    ensures " RETURNING " + Join(Quoted(ns), ", ") != " RETURNING *"
  {
    var names := Join(Quoted(ns), ", ");
    assert (" RETURNING " + names)[11] == names[0];
  }

  // ----- The whole statement -----

  predicate Writable(s: Statement, cols: seq<string>, vals: seq<SqlValue>) {
    && |cols| == |vals| && cols != [] && s.row == Pairs(cols, vals)
    && NoQuote(s.table) && NoQuotes(cols) && Named(s.action) && (s.returning.Some? ==> NoQuotes(s.returning.value))
  }

  /**
   * Read back with its parameters, the statement that is written says what was built: every column gets its own
   * value, every entry of the SET list its own value or the proposed one, and the same columns are returned.
   */
  lemma {:induction false} InsertReads(s: Statement, cols: seq<string>, vals: seq<SqlValue>)
    requires Writable(s, cols, vals)
    ensures var conflict := Written(s.action);
            ReadInsert(InsertToks(s.table, cols, vals, conflict, WrittenReturning(s.returning)),
                       vals + ConflictParams(conflict)) == Some(s)
  {
    hide ReadHead, ReadValues, ReadAction, ReadReturning, ListToks, ConflictToks, ConflictParams, ReturningText, Join, Named;
    var conflict := Written(s.action);
    var params := vals + ConflictParams(conflict);
    var head := "INSERT INTO \"" + s.table + "\" (" + Join(Quoted(cols), ", ") + ") VALUES (";
    var last := [Frag(ReturningText(WrittenReturning(s.returning)))];
    var rest := ConflictToks(conflict, |vals|) + last;
    HeadRead(s.table, cols);
    ReturningRead(s.returning);
    assert params[0..|vals|] == vals && params[|vals|..|vals| + |ConflictParams(conflict)|] == ConflictParams(conflict);
    ValuesRead(vals, 1, [Frag(")")] + rest, params);
    ActionRead(s.action, |vals|, last, params);
    var ts := InsertToks(s.table, cols, vals, conflict, WrittenReturning(s.returning));
    assert ts == [Frag(head)] + (ListToks(Postgres, vals, 1) + ([Frag(")")] + rest));
    assert ts[1..] == ListToks(Postgres, vals, 1) + ([Frag(")")] + rest);
    assert ([Frag(")")] + rest)[1..] == rest;
  }

  // ----- The row that is stored -----

  function Fields(row: seq<(string, SqlValue)>): map<string, SqlValue> {
    if row == [] then map[] else Fields(row[..|row| - 1])[row[|row| - 1].0 := row[|row| - 1].1]
  }

  /** What an overwriting INSERT makes of the row that is in its way, entry by entry. */
  function Overwritten(before: map<string, SqlValue>, proposed: map<string, SqlValue>, sets: seq<(string, Source)>): map<string, SqlValue> {
    if sets == [] then before
    else
      var row, last := Overwritten(before, proposed, sets[..|sets| - 1]), sets[|sets| - 1];
      match last.1
      case Bound(v) => row[last.0 := v]
      case Proposed(col) => if col in proposed then row[last.0 := proposed[col]] else row
  }

  ghost predicate Distinct(names: seq<string>) {
    forall i, j :: 0 <= i < j < |names| ==> names[i] != names[j]
  }

  lemma {:induction false} FieldsAre(cols: seq<string>, vals: seq<SqlValue>)
    requires |cols| == |vals| && Distinct(cols)
    ensures forall c :: c in Fields(Pairs(cols, vals)) <==> c in cols
    ensures forall i :: 0 <= i < |cols| ==> cols[i] in Fields(Pairs(cols, vals)) && Fields(Pairs(cols, vals))[cols[i]] == vals[i]
  {
    hide Fields, Pairs;
    if cols == [] {
      NoFields();
    } else {
      var n := |cols| - 1;
      var before := Fields(Pairs(cols[..n], vals[..n]));
      FieldsAre(cols[..n], vals[..n]);
      LastPair(cols, vals);
      assert cols == cols[..n] + [cols[n]];
      forall i | 0 <= i < n
        ensures cols[i] in before && before[cols[i]] == vals[i]
      {
        assert cols[..n][i] == cols[i] && vals[..n][i] == vals[i];
      }
    }
  }

  lemma {:induction false} NoFields()
    ensures Fields(Pairs([], [])) == map[]
  {
  }

  lemma {:induction false} LastPair(cols: seq<string>, vals: seq<SqlValue>)
    requires |cols| == |vals| > 0
    ensures var n := |cols| - 1; Fields(Pairs(cols, vals)) == Fields(Pairs(cols[..n], vals[..n]))[cols[n] := vals[n]]
  {
    var n := |cols| - 1;
    assert Pairs(cols, vals)[..n] == Pairs(cols[..n], vals[..n]);
  }

  /** The row that the database stores has exactly the columns that were built, each with its own value. */
  lemma {:induction false} StoredAsBuilt(s: Statement, cols: seq<string>, vals: seq<SqlValue>)
    requires Writable(s, cols, vals) && Distinct(cols)
    ensures var conflict := Written(s.action);
            var read := ReadInsert(InsertToks(s.table, cols, vals, conflict, WrittenReturning(s.returning)),
                                   vals + ConflictParams(conflict));
            && read.Some? && read.value.table == s.table
            && Fields(read.value.row).Keys == (set c | c in cols)
            && forall i :: 0 <= i < |cols| ==> Fields(read.value.row)[cols[i]] == vals[i]
  {
    hide ReadInsert, InsertToks, ConflictParams, Fields;
    InsertReads(s, cols, vals);
    FieldsAre(cols, vals);
  }

  /** A row in the way is overwritten in the named columns only: with the bound values, or with its own new ones. */
  lemma {:induction false} OverwrittenAsBuilt(before: map<string, SqlValue>, proposed: map<string, SqlValue>, sets: seq<(string, Source)>)
    requires OwnSets(sets) && forall i, j :: 0 <= i < j < |sets| ==> sets[i].0 != sets[j].0
    requires forall i :: 0 <= i < |sets| && sets[i].1.Proposed? ==> sets[i].0 in proposed
    ensures var row := Overwritten(before, proposed, sets);
            && (forall i :: 0 <= i < |sets| ==>
                  sets[i].0 in row && row[sets[i].0] == if sets[i].1.Bound? then sets[i].1.v else proposed[sets[i].0])
            && (forall c :: (forall i :: 0 <= i < |sets| ==> sets[i].0 != c) ==>
                  (c in row <==> c in before) && (c in row ==> row[c] == before[c]))
  {
    hide Overwritten;
    if sets == [] {
      NothingOverwritten(before, proposed);
    } else {
      var n := |sets| - 1;
      assert forall i :: 0 <= i < n ==> sets[..n][i] == sets[i];
      OverwrittenAsBuilt(before, proposed, sets[..n]);
      LastOverwritten(before, proposed, sets);
    }
  }

  lemma {:induction false} NothingOverwritten(before: map<string, SqlValue>, proposed: map<string, SqlValue>)
    ensures Overwritten(before, proposed, []) == before
  {
  }

  lemma {:induction false} LastOverwritten(before: map<string, SqlValue>, proposed: map<string, SqlValue>,
                                           sets: seq<(string, Source)>)
    requires sets != [] && OwnSets(sets) && (sets[|sets| - 1].1.Proposed? ==> sets[|sets| - 1].0 in proposed)
    ensures var row, last := Overwritten(before, proposed, sets[..|sets| - 1]), sets[|sets| - 1];
            Overwritten(before, proposed, sets) == row[last.0 := if last.1.Bound? then last.1.v else proposed[last.0]]
  {
  }
}
