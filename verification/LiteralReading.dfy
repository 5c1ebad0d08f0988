/** Literal SQL text, read back as the constant that a database takes it for. */
module LiteralReading {
  import opened Text
  import opened Values

  datatype Constant = Text(s: string) | Number(digits: string) | Truth(b: bool) | Nothing | List(elems: seq<Constant>)

  // ----- Reading -----

  /** A quoted text, after its opening quote, runs up to a quote that is not doubled. */
  function ReadQuoted(s: string): (r: Option<(string, string)>)
    ensures r.Some? ==> |r.value.1| < |s|
  {
    if s == "" then None
    else if s[0] == '\'' then
      if |s| > 1 && s[1] == '\'' then
        match ReadQuoted(s[2..])
        case None => None
        case Some(r) => Some((['\''] + r.0, r.1))
      else Some(("", s[1..]))
    else
      match ReadQuoted(s[1..])
      case None => None
      case Some(r) => Some(([s[0]] + r.0, r.1))
  }

  predicate NumberChar(c: char) {
    IsDigit(c) || c == '-' || c == '.' || c == 'e'
  }

  function NumberRun(s: string): (n: nat)
    ensures n <= |s|
  {
    if s != "" && NumberChar(s[0]) then 1 + NumberRun(s[1..]) else 0
  }

  function ReadConstant(s: string): (r: Option<(Constant, string)>)
    ensures r.Some? ==> |r.value.1| < |s|
    decreases |s|, 0
  {
    if s == "" then None
    else if NumberRun(s) > 0 then Some((Number(s[..NumberRun(s)]), s[NumberRun(s)..]))
    else if s[0] == '\'' then
      match ReadQuoted(s[1..])
      case None => None
      case Some(r) => Some((Text(r.0), r.1))
    else if "NULL" <= s then Some((Nothing, s[4..]))
    else if "TRUE" <= s then Some((Truth(true), s[4..]))
    else if "FALSE" <= s then Some((Truth(false), s[5..]))
    else if "ARRAY[]" <= s then Some((List([]), s[7..]))
    else if "ARRAY[" <= s then
      match ReadList(s[6..])
      case None => None
      case Some(r) => Some((List(r.0), r.1))
    else None
  }

  /** Constants between commas, up to a closing bracket. */
  function ReadList(s: string): (r: Option<(seq<Constant>, string)>)
    ensures r.Some? ==> |r.value.1| < |s|
    decreases |s|, 1
  {
    match ReadConstant(s)
    case None => None
    case Some(first) =>
      if first.1 != "" && first.1[0] == ']' then Some(([first.0], first.1[1..]))
      else if ", " <= first.1 then
        match ReadList(first.1[2..])
        case None => None
        case Some(more) => Some(([first.0] + more.0, more.1))
      else None
  }

  // ----- What a value should be taken for -----

  function ConstantOf(v: SqlValue): Constant {
    match v
    case Txt(s) => Text(s)
    case Integer(n) => Number(IntText(n))
    case Float(r) => Number(r)
    case Bool(b) => Truth(b)
    case Null => Nothing
    case Json(r) => Text(r)
    case Uuid(r) => Text(r)
    case Array(vs) => List(ConstantsOf(vs))
  }

  function ConstantsOf(vs: seq<SqlValue>): seq<Constant> {
    if vs == [] then [] else [ConstantOf(vs[0])] + ConstantsOf(vs[1..])
  }

  predicate IsNumeral(r: string) {
    r != "" && forall i :: 0 <= i < |r| ==> NumberChar(r[i])
  }

  /** Numbers look like numbers, and JSON and UUIDs hold no quote; texts may hold anything. */
  predicate Plain(v: SqlValue) {
    match v
    case Float(r) => IsNumeral(r)
    case Json(r) => '\'' !in r
    case Uuid(r) => '\'' !in r
    case Array(vs) => forall i :: 0 <= i < |vs| ==> Plain(vs[i])
    case _ => true
  }

  // ----- A literal is read as its value -----

  lemma {:induction false} QuotedRead(s: string, rest: string)
    requires rest == "" || rest[0] != '\''
    ensures ReadQuoted(Doubled(s, '\'') + ("'" + rest)) == Some((s, rest))
  {
    var t := Doubled(s, '\'') + ("'" + rest);
    if s == "" {
      assert t == "'" + rest && t[1..] == rest;
    } else {
      var more := Doubled(s[1..], '\'') + ("'" + rest);
      QuotedRead(s[1..], rest);
      assert [s[0]] + s[1..] == s;
      if s[0] == '\'' {
        assert t == ['\'', '\''] + more && t[2..] == more;
      } else {
        assert t == [s[0]] + more && t[1..] == more;
      }
    }
  }

  lemma {:induction false} NumberRunOf(s: string, rest: string)
    requires (forall i :: 0 <= i < |s| ==> NumberChar(s[i])) && (rest == "" || !NumberChar(rest[0]))
    ensures NumberRun(s + rest) == |s|
  {
    if s == "" {
      assert s + rest == rest;
    } else {
      assert (s + rest)[1..] == s[1..] + rest;
      NumberRunOf(s[1..], rest);
    }
  }

  lemma {:induction false} IntIsNumeral(n: int)
    ensures IsNumeral(IntText(n))
  {
    hide Decimal;
    if n < 0 {
      assert IntText(n) == "-" + Decimal(-n);
      assert forall i :: 0 < i < |IntText(n)| ==> IntText(n)[i] == Decimal(-n)[i - 1];
    }
  }

  /** What may follow a literal. */
  predicate Follows(rest: string) {
    rest == "" || rest[0] == ',' || rest[0] == ']'
  }

  lemma {:induction false} NumberRead(r: string, rest: string)
    requires IsNumeral(r) && Follows(rest)
    ensures ReadConstant(r + rest) == Some((Number(r), rest))
  {
    NumberRunOf(r, rest);
    assert (r + rest)[..|r|] == r && (r + rest)[|r|..] == rest;
  }

  lemma {:induction false} TextRead(s: string, rest: string)
    requires Follows(rest)
    ensures ReadConstant("'" + Doubled(s, '\'') + "'" + rest) == Some((Text(s), rest))
  {
    hide Doubled, ReadQuoted;
    var t := "'" + Doubled(s, '\'') + "'" + rest;
    QuotedRead(s, rest);
    assert t[0] == '\'' && t[1..] == Doubled(s, '\'') + ("'" + rest);
  }

  lemma {:induction false} WordRead(v: SqlValue, rest: string)
    requires v.Bool? || v.Null?
    ensures ReadConstant(ToSqlLiteral(v) + rest) == Some((ConstantOf(v), rest))
  {
    var s := ToSqlLiteral(v) + rest;
    match v
    case Null =>
      assert s[0] == 'N' && s[4..] == rest;
    case Bool(b) =>
      assert "NULL"[0] == 'N' && "TRUE"[0] == 'T';
      if b {
        assert s[0] == 'T' && s[4..] == rest;
      } else {
        assert s[0] == 'F' && s[5..] == rest;
      }
  }

  /** In every context, a literal is read as the value it was written for, and reading goes on right behind it. */
  lemma {:induction false} LiteralReads(v: SqlValue, rest: string)
    requires Plain(v) && Follows(rest)
    ensures ReadConstant(ToSqlLiteral(v) + rest) == Some((ConstantOf(v), rest))
    decreases v, 1
  {
    hide ReadConstant, IntText, Doubled, LiteralList, ConstantsOf, IsNumeral, Follows;
    match v
    case Txt(s) => TextRead(s, rest);
    case Integer(n) =>
      IntIsNumeral(n);
      NumberRead(IntText(n), rest);
    case Float(r) => NumberRead(r, rest);
    case Json(r) =>
      NothingToDouble(r, '\'');
      TextRead(r, rest);
    case Uuid(r) =>
      NothingToDouble(r, '\'');
      TextRead(r, rest);
    case Array(vs) => ArrayReads(vs, rest);
    case _ => WordRead(v, rest);
  }

  lemma {:induction false} ArrayReads(vs: seq<SqlValue>, rest: string)
    requires (forall i :: 0 <= i < |vs| ==> Plain(vs[i])) && Follows(rest)
    ensures ReadConstant("ARRAY[" + LiteralList(vs) + "]" + rest) == Some((List(ConstantsOf(vs)), rest))
    decreases vs, 2
  {
    hide ReadConstant, ReadList, Plain, LiteralList, ConstantsOf;
    if vs == [] {
      NoElements();
      EmptyRead(rest);
    } else {
      ListReads(vs, rest);
      LiteralStart(vs[0]);
      ListStart(vs);
      BracketRead(LiteralList(vs), ConstantsOf(vs), rest);
    }
  }

  lemma {:induction false} NoElements()
    ensures LiteralList([]) == "" && ConstantsOf([]) == []
  {
  }

  lemma {:induction false} EmptyRead(rest: string)
    ensures ReadConstant("ARRAY[" + "" + "]" + rest) == Some((List([]), rest))
  {
    var s := "ARRAY[" + "" + "]" + rest;
    assert s == "ARRAY[]" + rest && s[7..] == rest;
    assert s[0] == 'A' && "NULL"[0] == 'N' && "TRUE"[0] == 'T' && "FALSE"[0] == 'F';
  }

  lemma {:induction false} BracketRead(list: string, vs: seq<Constant>, rest: string)
    requires list != "" && list[0] != ']' && ReadList(list + ("]" + rest)) == Some((vs, rest))
    ensures ReadConstant("ARRAY[" + list + "]" + rest) == Some((List(vs), rest))
  {
    hide ReadList;
    var s := "ARRAY[" + list + "]" + rest;
    assert s[6..] == list + ("]" + rest) && s[..6] == "ARRAY[";
    assert s[6] == list[0] && "ARRAY[]"[6] == ']';
    assert s[0] == 'A' && "NULL"[0] == 'N' && "TRUE"[0] == 'T' && "FALSE"[0] == 'F';
  }

  lemma {:induction false} LiteralStart(v: SqlValue)
    requires Plain(v)
    ensures ToSqlLiteral(v) != "" && ToSqlLiteral(v)[0] != ']'
  {
    hide Decimal, Doubled, LiteralList;
  }

  lemma {:induction false} ListStart(vs: seq<SqlValue>)
    requires vs != [] && ToSqlLiteral(vs[0]) != ""
    ensures LiteralList(vs) != "" && LiteralList(vs)[0] == ToSqlLiteral(vs[0])[0]
  {
    hide ToSqlLiteral;
  }

  lemma {:induction false} ListReads(vs: seq<SqlValue>, rest: string)
    requires vs != [] && forall i :: 0 <= i < |vs| ==> Plain(vs[i])
    ensures ReadList(LiteralList(vs) + ("]" + rest)) == Some((ConstantsOf(vs), rest))
    decreases vs, 0
  {
    hide ReadConstant, ToSqlLiteral, ConstantOf, Plain;
    assert Plain(vs[0]);
    if |vs| == 1 {
      LiteralReads(vs[0], "]" + rest);
      assert ("]" + rest)[1..] == rest;
      assert ConstantsOf(vs) == [ConstantOf(vs[0])];
    } else {
      var more := LiteralList(vs[1..]) + ("]" + rest);
      ListReads(vs[1..], rest);
      LiteralReads(vs[0], ", " + more);
      assert LiteralList(vs) + ("]" + rest) == ToSqlLiteral(vs[0]) + (", " + more);
      assert (", " + more)[2..] == more && (", " + more)[0] == ',';
    }
  }

  // ----- JSON and UUIDs are not escaped -----

  /** Reading a quoted text undoes the doubling of its quotes, and nothing else is read as that text. */
  lemma {:induction false} QuotedIs(s: string)
    requires ReadQuoted(s).Some?
    ensures s == Doubled(ReadQuoted(s).value.0, '\'') + ("'" + ReadQuoted(s).value.1)
  {
    if s[0] == '\'' {
      if |s| > 1 && s[1] == '\'' {
        QuotedIs(s[2..]);
        var t := ReadQuoted(s).value.0;
        assert t[0] == '\'' && t[1..] == ReadQuoted(s[2..]).value.0;
        assert s == ['\'', '\''] + s[2..];
      } else {
        assert s == "'" + s[1..] && Doubled("", '\'') == "";
      }
    } else {
      QuotedIs(s[1..]);
      var t := ReadQuoted(s).value.0;
      assert t[0] == s[0] && t[1..] == ReadQuoted(s[1..]).value.0;
      assert s == [s[0]] + s[1..];
    }
  }

  lemma {:induction false} DoubledLength(s: string, q: char)
    ensures |Doubled(s, q)| == |s| + Count(s, q)
  {
    if s != "" {
      DoubledLength(s[1..], q);
    }
  }

  /** A JSON literal is read as its value exactly when no quote occurs in it. */
  lemma {:induction false} JsonReadsIff(r: string)
    ensures ReadConstant(ToSqlLiteral(Json(r))) == Some((Text(r), "")) <==> '\'' !in r
  {
    var s := ToSqlLiteral(Json(r));
    if '\'' !in r {
      LiteralReads(Json(r), "");
      assert s + "" == s;
    }
    if ReadConstant(s) == Some((Text(r), "")) {
      assert s[0] == '\'' && s[1..] == r + "'";
      QuotedIs(r + "'");
      DoubledLength(r, '\'');
      CountNone(r, '\'');
    }
  }
}
