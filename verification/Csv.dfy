/** Rows written for COPY in CSV format, and read back by the grammar of section 2 of RFC 4180 with LF line ends. */
module Csv {
  import opened Text
  import opened Values

  // ----- Writing -----

  /** Text and JSON are quoted, everything else is bare; an array's quoted text does not double the quotes inside. */
  function Escape(v: SqlValue): string {
    match v
    case Null => ""
    case Bool(b) => if b then "t" else "f"
    case Integer(n) => IntText(n)
    case Float(r) => r
    case Txt(s) => "\"" + Doubled(s, '"') + "\""
    case Uuid(r) => r
    case Json(r) => "\"" + Doubled(r, '"') + "\""
    case Array(vs) => "\"{" + EscapeList(vs) + "}\""
  }

  function EscapeList(vs: seq<SqlValue>): string {
    if vs == [] then ""
    else if |vs| == 1 then Escape(vs[0])
    else Escape(vs[0]) + "," + EscapeList(vs[1..])
  }

  function CopyText(rows: seq<seq<SqlValue>>): string {
    if rows == [] then "" else EscapeList(rows[0]) + "\n" + CopyText(rows[1..])
  }

  lemma {:induction false} NextLine(rows: seq<seq<SqlValue>>, k: nat, sent: string)
    requires k < |rows|
    ensures sent + (EscapeList(rows[k]) + "\n") + CopyText(rows[k + 1..]) == sent + CopyText(rows[k..])
  {
    hide EscapeList;
    assert rows[k..][1..] == rows[k + 1..];
  }

  /** The column names of the later rows are not looked at; without rows nothing is sent at all. */
  method CopyInsert(table: string, rows: seq<seq<(string, SqlValue)>>) returns (statement: Option<string>, sent: string)
    ensures rows == [] ==> statement == None && sent == ""
    ensures rows != [] ==> statement == Some(CopyStatement(table, rows[0]))
    ensures sent == CopyText(ValuesOf(rows))
  {
    sent := "";
    if rows == [] {
      return None, "";
    }
    statement := Some(CopyStatement(table, rows[0]));
    ghost var all := ValuesOf(rows);
    assert all[0..] == all;
    for k := 0 to |rows|
      invariant sent + CopyText(all[k..]) == CopyText(all)
    {
      NextLine(all, k, sent);
      sent := sent + (EscapeList(RowValues(rows[k])) + "\n");
    }
    assert all[|rows|..] == [];
  }

  function RowValues(row: seq<(string, SqlValue)>): seq<SqlValue> {
    seq(|row|, i requires 0 <= i < |row| => row[i].1)
  }

  function ValuesOf(rows: seq<seq<(string, SqlValue)>>): seq<seq<SqlValue>> {
    seq(|rows|, i requires 0 <= i < |rows| => RowValues(rows[i]))
  }

  function CopyStatement(table: string, row: seq<(string, SqlValue)>): string {
    "COPY \"" + table + "\" (" + Join(seq(|row|, i requires 0 <= i < |row| => "\"" + row[i].0 + "\""), ", ")
    + ") FROM STDIN (FORMAT CSV, NULL '')"
  }

  // ----- Reading -----

  /** Quoting is part of what a field says: bare nothing is NULL, quoted nothing is the empty text. */
  datatype Field = Field(text: string, quoted: bool)

  datatype Step<T> = Bad | Good(value: T, rest: string)

  function AtEnd(c: char): bool {
    c == ',' || c == '\n'
  }

  /** A bare field runs up to the next comma or line end, and holds no quote. */
  function ReadBare(s: string): (r: Step<string>)
    ensures r.Good? ==> |r.rest| <= |s|
  {
    if s == "" || AtEnd(s[0]) then Good("", s)
    else if s[0] == '"' then Bad
    else
      match ReadBare(s[1..])
      case Bad => Bad
      case Good(t, rest) => Good([s[0]] + t, rest)
  }

  /** A quoted field, after its opening quote, runs up to a quote that is not doubled. */
  function ReadQuoted(s: string): (r: Step<string>)
    ensures r.Good? ==> |r.rest| <= |s|
  {
    if s == "" then Bad
    else if s[0] == '"' then
      if |s| > 1 && s[1] == '"' then
        match ReadQuoted(s[2..])
        case Bad => Bad
        case Good(t, rest) => Good(['"'] + t, rest)
      else Good("", s[1..])
    else
      match ReadQuoted(s[1..])
      case Bad => Bad
      case Good(t, rest) => Good([s[0]] + t, rest)
  }

  function ReadField(s: string): (r: Step<Field>)
    ensures r.Good? ==> |r.rest| <= |s|
  {
    if s != "" && s[0] == '"' then
      match ReadQuoted(s[1..])
      case Bad => Bad
      case Good(t, rest) => Good(Field(t, true), rest)
    else
      match ReadBare(s)
      case Bad => Bad
      case Good(t, rest) => Good(Field(t, false), rest)
  }

  /** A record is one or more fields between commas, closed by a line end. */
  function ReadRecord(s: string): (r: Step<seq<Field>>)
    ensures r.Good? ==> |r.rest| < |s|
    decreases |s|
  {
    match ReadField(s)
    case Bad => Bad
    case Good(f, rest) =>
      if rest == "" then Bad
      else if rest[0] == '\n' then Good([f], rest[1..])
      else if rest[0] == ',' then
        match ReadRecord(rest[1..])
        case Bad => Bad
        case Good(fs, rest') => Good([f] + fs, rest')
      else Bad
  }

  function ReadAll(s: string): Option<seq<seq<Field>>>
    decreases |s|
  {
    if s == "" then Some([])
    else
      match ReadRecord(s)
      case Bad => None
      case Good(r, rest) =>
        match ReadAll(rest)
        case None => None
        case Some(rs) => Some([r] + rs)
  }

  // ----- What should be read back -----

  function FieldOf(v: SqlValue): Field {
    match v
    case Null => Field("", false)
    case Bool(b) => Field(if b then "t" else "f", false)
    case Integer(n) => Field(IntText(n), false)
    case Float(r) => Field(r, false)
    case Txt(s) => Field(s, true)
    case Uuid(r) => Field(r, false)
    case Json(r) => Field(r, true)
    case Array(vs) => Field("{" + EscapeList(vs) + "}", true)
  }

  predicate BareText(s: string) {
    ',' !in s && '\n' !in s && '"' !in s
  }

  /** Number and UUID texts hold no comma, quote or line end. */
  predicate Displayed(v: SqlValue) {
    match v
    case Float(r) => BareText(r)
    case Uuid(r) => BareText(r)
    case Array(vs) => forall i :: 0 <= i < |vs| ==> Displayed(vs[i])
    case _ => true
  }

  predicate InQuotes(v: SqlValue) {
    v.Txt? || v.Json? || v.Array?
  }

  /** No array holds a value that is quoted in turn: a text, JSON or an array. */
  predicate Copyable(v: SqlValue) {
    v.Array? ==> forall i :: 0 <= i < |v.elems| ==> !InQuotes(v.elems[i])
  }

  predicate AllDisplayed(vs: seq<SqlValue>) {
    forall i :: 0 <= i < |vs| ==> Displayed(vs[i])
  }

  predicate AllCopyable(vs: seq<SqlValue>) {
    forall i :: 0 <= i < |vs| ==> Copyable(vs[i])
  }

  lemma {:induction false} BareTail(s: string)
    requires BareText(s) && s != ""
    ensures BareText(s[1..]) && !AtEnd(s[0]) && s[0] != '"'
  {
    assert s[0] in s && forall c :: c in s[1..] ==> c in s;
  }

  lemma {:induction false} BareRead(s: string, rest: string)
    requires BareText(s) && rest != "" && AtEnd(rest[0])
    ensures ReadBare(s + rest) == Good(s, rest)
  {
    hide BareText, AtEnd;
    if s == "" {
      assert s + rest == rest;
    } else {
      BareTail(s);
      BareRead(s[1..], rest);
      assert (s + rest)[0] == s[0] && (s + rest)[1..] == s[1..] + rest;
      assert [s[0]] + s[1..] == s;
    }
  }

  lemma {:induction false} QuotedRead(s: string, rest: string)
    requires rest != "" ==> rest[0] != '"'
    ensures ReadQuoted(Doubled(s, '"') + ("\"" + rest)) == Good(s, rest)
  {
    var t := Doubled(s, '"') + ("\"" + rest);
    if s == "" {
      assert t == "\"" + rest && t[1..] == rest;
    } else {
      QuotedRead(s[1..], rest);
      var n := if s[0] == '"' then 2 else 1;
      assert t[0] == s[0] && (n == 2 ==> t[1] == '"');
      assert t[n..] == Doubled(s[1..], '"') + ("\"" + rest);
      assert [s[0]] + s[1..] == s;
    }
  }

  lemma {:induction false} QuotedField(s: string, rest: string)
    requires rest != "" && AtEnd(rest[0])
    ensures ReadField("\"" + Doubled(s, '"') + "\"" + rest) == Good(Field(s, true), rest)
  {
    hide Doubled, ReadQuoted;
    var t := "\"" + Doubled(s, '"') + "\"" + rest;
    QuotedRead(s, rest);
    assert t[1..] == Doubled(s, '"') + ("\"" + rest);
  }

  lemma {:induction false} BareField(s: string, rest: string)
    requires BareText(s) && rest != "" && AtEnd(rest[0])
    ensures ReadField(s + rest) == Good(Field(s, false), rest)
  {
    hide ReadBare;
    BareRead(s, rest);
    if s == "" {
      assert s + rest == rest;
    } else {
      assert (s + rest)[0] == s[0];
    }
  }

  lemma {:induction false} FieldRead(v: SqlValue, rest: string)
    requires Displayed(v) && Copyable(v) && rest != "" && AtEnd(rest[0])
    ensures ReadField(Escape(v) + rest) == Good(FieldOf(v), rest)
  {
    hide ReadField, Doubled, EscapeList;
    match v
    case Null => BareField("", rest);
    case Bool(b) => BareField(if b then "t" else "f", rest);
    case Integer(n) =>
      IntBare(n);
      BareField(IntText(n), rest);
    case Float(r) => BareField(r, rest);
    case Uuid(r) => BareField(r, rest);
    case Txt(s) => QuotedField(s, rest);
    case Json(r) => QuotedField(r, rest);
    case Array(vs) =>
      var inner := "{" + EscapeList(vs) + "}";
      ListCount(vs);
      CountNone(EscapeList(vs), '"');
      NothingToDouble(inner, '\"');
      QuotedField(inner, rest);
      assert "\"" + inner + "\"" == "\"{" + EscapeList(vs) + "}\"";
  }

  lemma {:induction false} IntBare(n: int)
    ensures BareText(IntText(n))
  {
    hide Decimal;
  }

  function Fields(vs: seq<SqlValue>): seq<Field> {
    seq(|vs|, i requires 0 <= i < |vs| => FieldOf(vs[i]))
  }

  lemma {:induction false} RecordRead(vs: seq<SqlValue>, rest: string)
    requires vs != [] && AllDisplayed(vs) && AllCopyable(vs)
    ensures ReadRecord(EscapeList(vs) + ("\n" + rest)) == Good(Fields(vs), rest)
  {
    hide ReadField, Escape, FieldOf, Copyable, Displayed;
    if |vs| == 1 {
      FieldRead(vs[0], "\n" + rest);
      assert ("\n" + rest)[1..] == rest;
      assert Fields(vs) == [FieldOf(vs[0])];
    } else {
      var more := EscapeList(vs[1..]) + ("\n" + rest);
      FieldRead(vs[0], "," + more);
      RecordRead(vs[1..], rest);
      assert EscapeList(vs) + ("\n" + rest) == Escape(vs[0]) + ("," + more);
      assert ("," + more)[1..] == more;
      assert Fields(vs) == [FieldOf(vs[0])] + Fields(vs[1..]);
    }
  }

  function Records(rows: seq<seq<SqlValue>>): seq<seq<Field>> {
    seq(|rows|, i requires 0 <= i < |rows| => Fields(rows[i]))
  }

  lemma {:induction false} CopyRead(rows: seq<seq<SqlValue>>)
    requires forall i :: 0 <= i < |rows| ==> rows[i] != [] && AllDisplayed(rows[i]) && AllCopyable(rows[i])
    ensures ReadAll(CopyText(rows)) == Some(Records(rows))
  {
    hide EscapeList, ReadRecord, AllCopyable, AllDisplayed;
    if rows != [] {
      var rest := CopyText(rows[1..]);
      RecordRead(rows[0], rest);
      CopyRead(rows[1..]);
      assert CopyText(rows) == EscapeList(rows[0]) + ("\n" + rest);
      assert Records(rows) == [Fields(rows[0])] + Records(rows[1..]);
    }
  }

  // ----- Counting quotes -----

  /** The quotes that a field takes when it is written as it should be. */
  function FieldQuotes(f: Field): nat {
    if f.quoted then 2 + 2 * Count(f.text, '"') else 0
  }

  function RecordQuotes(fs: seq<Field>): nat {
    if fs == [] then 0 else FieldQuotes(fs[0]) + RecordQuotes(fs[1..])
  }

  function AllQuotes(rs: seq<seq<Field>>): nat {
    if rs == [] then 0 else RecordQuotes(rs[0]) + AllQuotes(rs[1..])
  }

  lemma {:induction false} RecordQuotesIs(f: Field, fs: seq<Field>)
    ensures RecordQuotes([f] + fs) == FieldQuotes(f) + RecordQuotes(fs)
  {
    assert ([f] + fs)[1..] == fs;
  }

  // What is read accounts for every quote of the text.

  lemma {:induction false} BareCount(s: string)
    requires ReadBare(s).Good?
    ensures Count(s, '"') == Count(ReadBare(s).rest, '"')
  {
    if !(s == "" || AtEnd(s[0])) {
      BareCount(s[1..]);
    }
  }

  lemma {:induction false} QuotedCount(s: string)
    requires ReadQuoted(s).Good?
    ensures Count(s, '"') == 1 + 2 * Count(ReadQuoted(s).value, '"') + Count(ReadQuoted(s).rest, '"')
  {
    CountIs(s, '"');
    if s[0] == '"' {
      if |s| > 1 && s[1] == '"' {
        QuotedCount(s[2..]);
        CountIs(s[1..], '"');
        assert s[1..][1..] == s[2..];
        CountCat(['"'], ReadQuoted(s[2..]).value, '"');
        CountOne('"');
      }
    } else {
      QuotedCount(s[1..]);
      var t := ReadQuoted(s[1..]).value;
      CountIs([s[0]] + t, '"');
      assert ([s[0]] + t)[1..] == t;
    }
  }

  lemma {:induction false} FieldCount(s: string)
    requires ReadField(s).Good?
    ensures Count(s, '"') == FieldQuotes(ReadField(s).value) + Count(ReadField(s).rest, '"')
  {
    hide ReadBare, ReadQuoted, Count;
    if s != "" && s[0] == '"' {
      QuotedCount(s[1..]);
      CountIs(s, '"');
    } else {
      BareCount(s);
    }
  }

  lemma {:induction false} RecordCount(s: string)
    requires ReadRecord(s).Good?
    ensures Count(s, '"') == RecordQuotes(ReadRecord(s).value) + Count(ReadRecord(s).rest, '"')
    ensures ReadRecord(s).value != []
    decreases |s|
  {
    hide ReadField, Count, FieldQuotes, RecordQuotes;
    var field := ReadField(s);
    FieldCount(s);
    CountIs(field.rest, '"');
    if field.rest[0] == '\n' {
      RecordQuotesIs(field.value, []);
      NoQuotes();
      assert [field.value] + [] == [field.value];
    } else {
      RecordCount(field.rest[1..]);
      RecordQuotesIs(field.value, ReadRecord(field.rest[1..]).value);
    }
  }

  lemma {:induction false} NoQuotes()
    ensures RecordQuotes([]) == 0 && Count("", '"') == 0
  {
  }

  lemma {:induction false} AllCount(s: string)
    requires ReadAll(s).Some?
    ensures Count(s, '"') == AllQuotes(ReadAll(s).value)
    ensures forall i :: 0 <= i < |ReadAll(s).value| ==> ReadAll(s).value[i] != []
    decreases |s|
  {
    hide ReadRecord, Count, RecordQuotes;
    if s == "" {
      NoQuotes();
    } else {
      var first := ReadRecord(s);
      RecordCount(s);
      AllCount(first.rest);
      var rs := ReadAll(first.rest).value;
      assert ([first.value] + rs)[1..] == rs;
    }
  }

  // What is written has as many quotes as it should, or fewer.

  lemma {:induction false} DoubledCount(s: string)
    ensures Count(Doubled(s, '"'), '"') == 2 * Count(s, '"')
  {
    if s != "" {
      DoubledCount(s[1..]);
      var rest := Doubled(s[1..], '"');
      if s[0] == '"' {
        CountCat(['"', '"'], rest, '"');
        CountCat(['"'], ['"'], '"');
        CountOne('"');
        assert ['"'] + ['"'] == ['"', '"'];
      } else {
        CountCat([s[0]], rest, '"');
        CountNone([s[0]], '"');
      }
    }
  }

  lemma {:induction false} WrappedCount(open: string, body: string, close: string)
    requires Count(open, '"') == 1 == Count(close, '"')
    ensures Count(open + body + close, '"') == 2 + Count(body, '"')
  {
    CountCat(open + body, close, '"');
    CountCat(open, body, '"');
  }

  lemma {:induction false} QuoteMarks()
    ensures Count("\"", '"') == 1 && Count("\"{", '"') == 1 && Count("}\"", '"') == 1
  {
    CountOne('"');
    CountCat("\"", "{", '"');
    CountCat("}", "\"", '"');
    CountNone("{", '"');
    CountNone("}", '"');
    assert "\"" + "{" == "\"{" && "}" + "\"" == "}\"";
  }

  /** The quotes of a written value; of an array, two and those of its elements. */
  lemma {:induction false} EscapeCount(v: SqlValue)
    requires Displayed(v)
    ensures v.Txt? ==> Count(Escape(v), '"') == 2 + 2 * Count(v.s, '"')
    ensures v.Json? ==> Count(Escape(v), '"') == 2 + 2 * Count(v.repr, '"')
    ensures v.Array? ==> Count(Escape(v), '"') == 2 + Count(EscapeList(v.elems), '"')
    ensures !InQuotes(v) ==> Count(Escape(v), '"') == 0
  {
    hide Doubled, EscapeList, Count, IntText;
    QuoteMarks();
    match v
    case Txt(s) =>
      DoubledCount(s);
      WrappedCount("\"", Doubled(s, '"'), "\"");
    case Json(r) =>
      DoubledCount(r);
      WrappedCount("\"", Doubled(r, '"'), "\"");
    case Array(vs) => WrappedCount("\"{", EscapeList(vs), "}\"");
    case Integer(n) =>
      IntBare(n);
      CountNone(IntText(n), '"');
    case _ => CountNone(Escape(v), '"');
  }

  /** The elements of an array hold a quote exactly when one of them is quoted. */
  lemma {:induction false} ListCount(vs: seq<SqlValue>)
    requires AllDisplayed(vs)
    ensures Count(EscapeList(vs), '"') == 0 <==> forall i :: 0 <= i < |vs| ==> !InQuotes(vs[i])
  {
    hide Escape, Count, Displayed;
    if vs == [] {
      NoQuotes();
    } else {
      EscapeCount(vs[0]);
      if |vs| > 1 {
        ListCount(vs[1..]);
        CountCat(Escape(vs[0]) + ",", EscapeList(vs[1..]), '"');
        CountCat(Escape(vs[0]), ",", '"');
        CountNone(",", '"');
        assert forall i :: 1 <= i < |vs| ==> vs[i] == vs[1..][i - 1];
      }
    }
  }

  lemma {:induction false} ValueCount(v: SqlValue)
    requires Displayed(v)
    ensures Count(Escape(v), '"') <= FieldQuotes(FieldOf(v))
    ensures Count(Escape(v), '"') == FieldQuotes(FieldOf(v)) <==> Copyable(v)
  {
    hide Escape, Count, Doubled, EscapeList, IntText;
    EscapeCount(v);
    if v.Array? {
      var inner := EscapeList(v.elems);
      ListCount(v.elems);
      CountCat("{" + inner, "}", '"');
      CountCat("{", inner, '"');
      CountNone("{", '"');
      CountNone("}", '"');
    }
  }

  lemma {:induction false} LineCount(vs: seq<SqlValue>)
    requires AllDisplayed(vs)
    ensures Count(EscapeList(vs), '"') <= RecordQuotes(Fields(vs))
    ensures Count(EscapeList(vs), '"') == RecordQuotes(Fields(vs)) <==> AllCopyable(vs)
  {
    hide Escape, Count, FieldQuotes, FieldOf, Copyable, Displayed;
    if vs == [] {
      NoQuotes();
    } else {
      ValueCount(vs[0]);
      assert Fields(vs)[1..] == Fields(vs[1..]);
      if |vs| > 1 {
        LineCount(vs[1..]);
        CountCat(Escape(vs[0]) + ",", EscapeList(vs[1..]), '"');
        CountCat(Escape(vs[0]), ",", '"');
        CountNone(",", '"');
        assert forall i :: 1 <= i < |vs| ==> vs[i] == vs[1..][i - 1];
      } else {
        NoQuotes();
      }
    }
  }

  predicate RowsCopyable(rows: seq<seq<SqlValue>>) {
    forall i :: 0 <= i < |rows| ==> AllCopyable(rows[i])
  }

  lemma {:induction false} TextCount(rows: seq<seq<SqlValue>>)
    requires forall i :: 0 <= i < |rows| ==> AllDisplayed(rows[i])
    ensures Count(CopyText(rows), '"') <= AllQuotes(Records(rows))
    ensures Count(CopyText(rows), '"') == AllQuotes(Records(rows)) <==> RowsCopyable(rows)
  {
    hide EscapeList, Count, RecordQuotes, Fields, AllCopyable, AllDisplayed;
    if rows == [] {
      NoQuotes();
    } else {
      LineCount(rows[0]);
      TextCount(rows[1..]);
      assert Records(rows)[1..] == Records(rows[1..]);
      CountCat(EscapeList(rows[0]) + "\n", CopyText(rows[1..]), '"');
      CountCat(EscapeList(rows[0]), "\n", '"');
      CountNone("\n", '"');
      assert forall i :: 1 <= i < |rows| ==> rows[i] == rows[1..][i - 1];
    }
  }

  // ----- Round trip -----

  /**
   * Reading the copied text recovers every row's fields, and which of them were quoted, exactly when every row has a
   * field and no array holds a text, JSON or an array. No other text spoils it, whatever it holds.
   */
  lemma {:induction false} CopyRoundTripIff(rows: seq<seq<SqlValue>>)
    requires forall i :: 0 <= i < |rows| ==> AllDisplayed(rows[i])
    ensures ReadAll(CopyText(rows)) == Some(Records(rows))
       <==> (forall i :: 0 <= i < |rows| ==> rows[i] != []) && RowsCopyable(rows)
  {
    hide CopyText, Count, AllQuotes, AllCopyable, AllDisplayed, ReadAll;
    if ReadAll(CopyText(rows)) == Some(Records(rows)) {
      AllCount(CopyText(rows));
      TextCount(rows);
      assert forall i :: 0 <= i < |rows| ==> |Records(rows)[i]| == |rows[i]|;
    } else if (forall i :: 0 <= i < |rows| ==> rows[i] != []) && RowsCopyable(rows) {
      CopyRead(rows);
    }
  }

  /** Wherever it stands, an array that holds a text, JSON or an array cannot be read back. */
  lemma {:induction false} ArrayBreaks(rows: seq<seq<SqlValue>>, i: nat, j: nat, k: nat)
    requires forall i :: 0 <= i < |rows| ==> AllDisplayed(rows[i])
    requires i < |rows| && j < |rows[i]| && rows[i][j].Array? && k < |rows[i][j].elems| && InQuotes(rows[i][j].elems[k])
    ensures ReadAll(CopyText(rows)) != Some(Records(rows))
  {
    hide CopyText, ReadAll, Records, Displayed;
    CopyRoundTripIff(rows);
    assert !Copyable(rows[i][j]);
  }

  /** NULL and the empty text stay apart. */
  lemma {:induction false} NullIsNotEmpty(v: SqlValue)
    ensures FieldOf(v) == Field("", false) <==> v == Null || v == Float("") || v == Uuid("")
  {
    hide Decimal, EscapeList;
  }
}
