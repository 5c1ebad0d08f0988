/** A COPY with its lines, read back: which column of which row gets which field. */
module CopyReading {
  import opened Text
  import opened Values
  import opened Csv
  import I = InsertReading
  import Inserts

  datatype Copied = Copied(table: string, rows: seq<seq<(string, Field)>>)

  /** The table and the columns that COPY names, in their order. */
  function ReadCopyHead(s: string): Option<(string, seq<string>)> {
    match I.After(s, "COPY ")
    case None => None
    case Some(a) =>
      match I.ReadName(a)
      case None => None
      case Some(table) =>
        match I.After(table.1, " (")
        case None => None
        case Some(b) =>
          match I.ReadNames(b)
          case None => None
          case Some(cols) => if cols.1 == ") FROM STDIN (FORMAT CSV, NULL '')" then Some((table.0, cols.0)) else None
  }

  /** The i-th field of a line goes to the i-th column. */
  function Assign(cols: seq<string>, fields: seq<Field>): seq<(string, Field)>
    requires |cols| == |fields|
  {
    seq(|cols|, i requires 0 <= i < |cols| => (cols[i], fields[i]))
  }

  predicate Fits(cols: seq<string>, lines: seq<seq<Field>>) {
    forall k :: 0 <= k < |lines| ==> |lines[k]| == |cols|
  }

  function AssignAll(cols: seq<string>, lines: seq<seq<Field>>): seq<seq<(string, Field)>>
    requires Fits(cols, lines)
  {
    seq(|lines|, k requires 0 <= k < |lines| => Assign(cols, lines[k]))
  }

  /** A line with too few or too many fields fails the whole COPY. */
  function ReadCopy(statement: string, sent: string): Option<Copied> {
    match ReadCopyHead(statement)
    case None => None
    case Some(head) =>
      match ReadAll(sent)
      case None => None
      case Some(lines) => if Fits(head.1, lines) then Some(Copied(head.0, AssignAll(head.1, lines))) else None
  }

  // ----- What was sent is read -----

  function Names(row: seq<(string, SqlValue)>): seq<string> {
    seq(|row|, i requires 0 <= i < |row| => row[i].0)
  }

  /** Every column with its own value. */
  function OwnFields(row: seq<(string, SqlValue)>): seq<(string, Field)> {
    seq(|row|, i requires 0 <= i < |row| => (row[i].0, FieldOf(row[i].1)))
  }

  function AllOwn(rows: seq<seq<(string, SqlValue)>>): seq<seq<(string, Field)>> {
    seq(|rows|, k requires 0 <= k < |rows| => OwnFields(rows[k]))
  }

  lemma {:induction false} CopyIs(table: string, row: seq<(string, SqlValue)>)
    ensures CopyStatement(table, row)
         == "COPY " + (Inserts.Quote(table) + (" (" + (Join(Inserts.Quoted(Names(row)), ", ") + ") FROM STDIN (FORMAT CSV, NULL '')")))
  {
    hide Join;
    var quoted := seq(|row|, i requires 0 <= i < |row| => "\"" + row[i].0 + "\"");
    assert quoted == Inserts.Quoted(Names(row));
    CopyText5(table, Join(quoted, ", "));
  }

  lemma {:induction false} CopyText5(table: string, names: string)
    ensures "COPY \"" + table + "\" (" + names + ") FROM STDIN (FORMAT CSV, NULL '')"
         == "COPY " + (Inserts.Quote(table) + (" (" + (names + ") FROM STDIN (FORMAT CSV, NULL '')")))
  {
    assert "COPY \"" == "COPY " + "\"" && "\" (" == "\"" + " (";
  }

  lemma {:induction false} HeadRead(table: string, row: seq<(string, SqlValue)>)
    requires row != [] && I.NoQuote(table) && I.NoQuotes(Names(row))
    ensures ReadCopyHead(CopyStatement(table, row)) == Some((table, Names(row)))
  {
    hide Join, I.ReadName, I.ReadNames, Inserts.Quoted, Inserts.Quote, I.NoQuote, I.NoQuotes, CopyStatement;
    var end := ") FROM STDIN (FORMAT CSV, NULL '')";
    var list := Join(Inserts.Quoted(Names(row)), ", ") + end;
    CopyIs(table, row);
    AfterOf("COPY ", Inserts.Quote(table) + (" (" + list));
    I.NameRead(table, " (" + list);
    AfterOf(" (", list);
    I.NamesRead(Names(row), end);
  }

  lemma {:induction false} AfterOf(word: string, rest: string)
    ensures I.After(word + rest, word) == Some(rest)
  {
    assert (word + rest)[|word|..] == rest;
  }

  /** Every row names as many columns as the first one. */
  predicate SameWidth(rows: seq<seq<(string, SqlValue)>>) {
    forall k :: 0 <= k < |rows| ==> |rows[k]| == |rows[0]|
  }

  /** The fields of every row, under the columns that the first one names. */
  function UnderFirst(rows: seq<seq<(string, SqlValue)>>): seq<seq<(string, Field)>>
    requires rows != [] && SameWidth(rows)
  {
    seq(|rows|, k requires 0 <= k < |rows| =>
      seq(|rows[0]|, i requires 0 <= i < |rows[0]| => (rows[0][i].0, FieldOf(rows[k][i].1))))
  }

  predicate AllShown(rows: seq<seq<(string, SqlValue)>>) {
    forall k :: 0 <= k < |rows| ==> AllDisplayed(RowValues(rows[k])) && AllCopyable(RowValues(rows[k]))
  }

  /** Every field arrives under the column that the first row has at its place. */
  lemma {:induction false} CopyReads(table: string, rows: seq<seq<(string, SqlValue)>>)
    requires rows != [] && rows[0] != [] && SameWidth(rows) && AllShown(rows)
    requires I.NoQuote(table) && I.NoQuotes(Names(rows[0]))
    ensures ReadCopy(CopyStatement(table, rows[0]), CopyText(ValuesOf(rows))) == Some(Copied(table, UnderFirst(rows)))
  {
    hide ReadCopyHead, CopyStatement, CopyText, ReadAll, FieldOf, I.NoQuote, I.NoQuotes, AllDisplayed, AllCopyable;
    hide Names, UnderFirst, AssignAll;
    var all := ValuesOf(rows);
    assert forall k :: 0 <= k < |all| ==> all[k] == RowValues(rows[k]) && |all[k]| == |rows[0]|;
    HeadRead(table, rows[0]);
    CopyRoundTripIff(all);
    FieldsUnderFirst(rows);
  }

  lemma {:induction false} FieldsUnderFirst(rows: seq<seq<(string, SqlValue)>>)
    requires rows != [] && SameWidth(rows)
    ensures Fits(Names(rows[0]), Records(ValuesOf(rows)))
    ensures AssignAll(Names(rows[0]), Records(ValuesOf(rows))) == UnderFirst(rows)
  {
    hide FieldOf;
    var lines := Records(ValuesOf(rows));
    forall k | 0 <= k < |rows|
      ensures lines[k] == Fields(RowValues(rows[k])) && |lines[k]| == |rows[0]|
    {
      assert ValuesOf(rows)[k] == RowValues(rows[k]);
    }
    var got, want := AssignAll(Names(rows[0]), lines), UnderFirst(rows);
    forall k | 0 <= k < |rows|
      ensures got[k] == want[k]
    {
      assert forall i :: 0 <= i < |rows[0]| ==> got[k][i] == want[k][i];
    }
    assert |got| == |want|;
  }

  /** So every value arrives under its own column exactly when all rows name their columns in the order of the first. */
  lemma {:induction false} CopyPairsIff(table: string, rows: seq<seq<(string, SqlValue)>>)
    requires rows != [] && rows[0] != [] && SameWidth(rows) && AllShown(rows)
    requires I.NoQuote(table) && I.NoQuotes(Names(rows[0]))
    ensures ReadCopy(CopyStatement(table, rows[0]), CopyText(ValuesOf(rows))) == Some(Copied(table, AllOwn(rows)))
       <==> forall k :: 0 <= k < |rows| ==> Names(rows[k]) == Names(rows[0])
  {
    hide ReadCopy, CopyStatement, CopyText, FieldOf, I.NoQuote, I.NoQuotes, AllShown;
    CopyReads(table, rows);
    var got, own := UnderFirst(rows), AllOwn(rows);
    forall k | 0 <= k < |rows|
      ensures got[k] == own[k] <==> Names(rows[k]) == Names(rows[0])
    {
      RowPairs(rows, k);
    }
    if got != own {
      assert exists k :: 0 <= k < |rows| && got[k] != own[k];
    }
  }

  lemma {:induction false} RowPairs(rows: seq<seq<(string, SqlValue)>>, k: nat)
    requires rows != [] && SameWidth(rows) && k < |rows|
    ensures UnderFirst(rows)[k] == OwnFields(rows[k]) <==> Names(rows[k]) == Names(rows[0])
  {
    hide FieldOf;
    var got, own := UnderFirst(rows)[k], OwnFields(rows[k]);
    var a, b := Names(rows[k]), Names(rows[0]);
    assert |got| == |own| == |a| == |b|;
    forall i | 0 <= i < |a|
      ensures got[i] == own[i] <==> a[i] == b[i]
    {
    }
    if got != own {
      assert exists i :: 0 <= i < |a| && got[i] != own[i];
    }
    if a != b {
      assert exists i :: 0 <= i < |a| && a[i] != b[i];
    }
  }
}
