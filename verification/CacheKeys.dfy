/** Cache keys, and what they have in common with the queries they are made from. */
module CacheKeys {
  import opened Text
  import opened Values

  function Literals(ps: seq<SqlValue>): seq<string> {
    seq(|ps|, i requires 0 <= i < |ps| => ToSqlLiteral(ps[i]))
  }

  function MakeKey(table: string, sql: string, params: seq<SqlValue>): string {
    table + ":" + sql + "|" + Join(Literals(params), ",")
  }

  /** Values whose literal text determines them. */
  predicate Plain(v: SqlValue) {
    v.Txt? || v.Integer? || v.Bool? || v.Null?
  }

  predicate AllPlain(ps: seq<SqlValue>) {
    forall i :: 0 <= i < |ps| ==> Plain(ps[i])
  }

  predicate NumeralText(r: string) {
    r != "" && forall c :: c in r ==> IsDigit(c) || c == '-' || c == '.'
  }

  /** What a 64-bit float displays as. */
  predicate FloatText(r: string) {
    NumeralText(r) || r == "NaN" || r == "inf" || r == "-inf"
  }

  /** Quotes come in pairs, as they do in doubled text. */
  predicate Paired(s: string) {
    s == "" || (if s[0] == '\'' then |s| > 1 && s[1] == '\'' && Paired(s[2..]) else Paired(s[1..]))
  }

  function Undoubled(s: string): string
    requires Paired(s)
  {
    if s == "" then "" else if s[0] == '\'' then "'" + Undoubled(s[2..]) else [s[0]] + Undoubled(s[1..])
  }

  lemma {:induction false} DoubledAgain(s: string)
    requires Paired(s)
    ensures Doubled(Undoubled(s), '\'') == s
  {
    if s != "" {
      var n := if s[0] == '\'' then 2 else 1;
      DoubledAgain(s[n..]);
      assert Undoubled(s)[1..] == Undoubled(s[n..]);
      assert s == s[..n] + s[n..];
    }
  }

  /** All values but JSON with a quote that is not doubled, and arrays that hold such. */
  predicate Keyed(v: SqlValue) {
    match v
    case Float(r) => FloatText(r)
    case Uuid(r) => Paired(r)
    case Json(r) => Paired(r)
    case Array(vs) => forall i :: 0 <= i < |vs| ==> Keyed(vs[i])
    case _ => true
  }

  predicate AllKeyed(ps: seq<SqlValue>) {
    forall i :: 0 <= i < |ps| ==> Keyed(ps[i])
  }

  // ----- Which values look alike -----

  predicate IsText(v: SqlValue) {
    v.Txt? || v.Uuid? || v.Json?
  }

  /** The text that a literal in quotes stands for. */
  function TextBody(v: SqlValue): string
    requires IsText(v) && Keyed(v)
  {
    if v.Txt? then v.s else Undoubled(v.repr)
  }

  predicate IsNumber(v: SqlValue) {
    v.Integer? || v.Float?
  }

  function Numeral(v: SqlValue): string
    requires IsNumber(v)
  {
    if v.Integer? then IntText(v.n) else v.repr
  }

  /**
   * Texts, UUIDs and JSON that stand for the same text look alike, and so do integers and floats that display alike,
   * and arrays whose elements do; no other values do unless they are equal.
   */
  predicate LooksLike(v: SqlValue, w: SqlValue)
    requires Keyed(v) && Keyed(w)
    decreases v
  {
    if IsText(v) then IsText(w) && TextBody(v) == TextBody(w)
    else if IsNumber(v) then IsNumber(w) && Numeral(v) == Numeral(w)
    else if v.Array? then
      w.Array? && |v.elems| == |w.elems| && forall i :: 0 <= i < |v.elems| ==> LooksLike(v.elems[i], w.elems[i])
    else v == w
  }

  predicate AllLookLike(ps: seq<SqlValue>, qs: seq<SqlValue>)
    requires AllKeyed(ps) && AllKeyed(qs)
  {
    |ps| == |qs| && forall i :: 0 <= i < |ps| ==> LooksLike(ps[i], qs[i])
  }

  lemma {:induction false} TextLiteral(v: SqlValue)
    requires Keyed(v) && IsText(v)
    ensures ToSqlLiteral(v) == "'" + Doubled(TextBody(v), '\'') + "'"
  {
    hide Doubled;
    if !v.Txt? {
      DoubledAgain(v.repr);
    }
  }

  /** Neither in quotes nor in brackets. */
  predicate Bare(s: string) {
    s != "" && s[0] != 'A' && forall c :: c in s ==> c !in ",'|]"
  }

  lemma {:induction false} BareLiteral(v: SqlValue)
    requires Keyed(v) && !IsText(v) && !v.Array?
    ensures Bare(ToSqlLiteral(v))
    ensures IsNumber(v) ==> ToSqlLiteral(v) == Numeral(v) && ToSqlLiteral(v)[0] !in "TF" && ToSqlLiteral(v) != "NULL"
  {
    hide Decimal;
    if v.Float? && NumeralText(v.repr) {
      assert v.repr[0] in v.repr;
    }
  }

  lemma {:induction false} BareAlike(v: SqlValue, w: SqlValue)
    requires Keyed(v) && Keyed(w) && !IsText(v) && !v.Array? && !IsText(w) && !w.Array?
    requires ToSqlLiteral(v) == ToSqlLiteral(w)
    ensures LooksLike(v, w)
  {
    hide IntText, Bare;
    BareLiteral(v);
    BareLiteral(w);
  }

  /** Values that look alike have the same literal. */
  lemma {:induction false} LooksSame(v: SqlValue, w: SqlValue)
    requires Keyed(v) && Keyed(w) && LooksLike(v, w)
    ensures ToSqlLiteral(v) == ToSqlLiteral(w)
    decreases v, 1
  {
    hide Doubled, IntText, Undoubled;
    if IsText(v) {
      TextLiteral(v);
      TextLiteral(w);
    } else if v.Array? {
      ListSame(v.elems, w.elems);
    }
  }

  lemma {:induction false} ListSame(vs: seq<SqlValue>, ws: seq<SqlValue>)
    requires AllKeyed(vs) && AllKeyed(ws) && AllLookLike(vs, ws)
    ensures LiteralList(vs) == LiteralList(ws)
    decreases vs, 0
  {
    hide ToSqlLiteral, Keyed, LooksLike;
    if vs != [] {
      LooksSame(vs[0], ws[0]);
      ListSame(vs[1..], ws[1..]);
    }
  }

  // ----- The literals of a list, one after the other -----

  function Written(ps: seq<SqlValue>): string {
    if ps == [] then "" else ToSqlLiteral(ps[0]) + More(ps[1..])
  }

  function More(ps: seq<SqlValue>): string {
    if ps == [] then "" else "," + ToSqlLiteral(ps[0]) + More(ps[1..])
  }

  lemma {:induction false} JoinIsWritten(ps: seq<SqlValue>)
    ensures Join(Literals(ps), ",") == Written(ps)
  {
    hide ToSqlLiteral;
    if |ps| == 1 {
      assert ps[1..] == [];
      assert ToSqlLiteral(ps[0]) + "" == ToSqlLiteral(ps[0]);
    } else if |ps| > 1 {
      JoinIsWritten(ps[1..]);
      assert Literals(ps)[1..] == Literals(ps[1..]);
      assert ps[1..][1..] == ps[2..];
    }
  }

  predicate Ends(rest: string) {
    rest == "" || rest[0] == ',' || rest[0] == ']'
  }

  lemma {:induction false} MoreEnds(ps: seq<SqlValue>)
    ensures Ends(More(ps))
  {
    hide ToSqlLiteral;
  }

  /** A closing quote is one that no second quote follows. */
  lemma {:induction false} ClosesAt(s: string, r: string)
    requires Ends(r)
    ensures var t := Doubled(s, '\'') + "'" + r;
            t != "" && (s == "" <==> t[0] == '\'' && (|t| == 1 || t[1] != '\''))
  {
  }

  lemma {:induction false} Peel(s: string, r: string)
    requires s != ""
    ensures var t := Doubled(s, '\'') + "'" + r;
            var n := if s[0] == '\'' then 2 else 1;
            |t| >= n && t[0] == s[0] && t[n..] == Doubled(s[1..], '\'') + "'" + r
  {
  }

  lemma {:induction false} DoubledUnique(s: string, r: string, s': string, r': string)
    requires Doubled(s, '\'') + "'" + r == Doubled(s', '\'') + "'" + r' && Ends(r) && Ends(r')
    ensures s == s' && r == r'
  {
    hide Doubled;
    ClosesAt(s, r);
    ClosesAt(s', r');
    if s == "" {
      NothingDoubled();
      assert "" + "'" + r == "'" + r && ("'" + r)[1..] == r && "" + "'" + r' == "'" + r' && ("'" + r')[1..] == r';
    } else {
      Peel(s, r);
      Peel(s', r');
      DoubledUnique(s[1..], r, s'[1..], r');
    }
  }

  lemma {:induction false} NothingDoubled()
    ensures Doubled("", '\'') == ""
  {
  }

  /** How a literal begins tells what kind of value it is. */
  lemma {:induction false} FirstChar(v: SqlValue)
    requires Keyed(v)
    ensures ToSqlLiteral(v) != "" && ToSqlLiteral(v)[0] !in ",|]"
    ensures IsText(v) <==> ToSqlLiteral(v)[0] == '\''
    ensures v.Array? <==> ToSqlLiteral(v)[0] == 'A'
  {
    hide Doubled, LiteralList, ToSqlLiteral, Keyed, TextBody;
    if IsText(v) {
      TextLiteral(v);
    } else if v.Array? {
      ArrayLiteral(v.elems);
    } else {
      BareLiteral(v);
      assert ToSqlLiteral(v)[0] in ToSqlLiteral(v);
    }
  }

  lemma {:induction false} ArrayLiteral(vs: seq<SqlValue>)
    ensures ToSqlLiteral(Array(vs)) == "ARRAY[" + (LiteralList(vs) + "]")
  {
    hide LiteralList;
  }

  /** A literal can be told from what follows it, and values with the same literal look alike. */
  lemma {:induction false} FirstUnique(v: SqlValue, r: string, v': SqlValue, r': string)
    requires Keyed(v) && Keyed(v') && Ends(r) && Ends(r')
    requires ToSqlLiteral(v) + r == ToSqlLiteral(v') + r'
    ensures LooksLike(v, v') && r == r'
    decreases v, 1
  {
    hide ToSqlLiteral, Doubled, TextBody, Bare;
    var a, b := ToSqlLiteral(v), ToSqlLiteral(v');
    FirstChar(v);
    FirstChar(v');
    assert (a + r)[0] == a[0] && (b + r')[0] == b[0];
    if IsText(v) {
      TextUnique(v, r, v', r');
    } else if v.Array? {
      ArrayLiteral(v.elems);
      ArrayLiteral(v'.elems);
      assert (a + r)[6..] == LiteralList(v.elems) + ("]" + r) && (b + r')[6..] == LiteralList(v'.elems) + ("]" + r');
      ListUnique(v.elems, "]" + r, v'.elems, "]" + r');
      assert ("]" + r)[1..] == r && ("]" + r')[1..] == r';
    } else {
      BareLiteral(v);
      BareLiteral(v');
      BareUnique(a, r, b, r');
      BareAlike(v, v');
    }
  }

  lemma {:induction false} TextUnique(v: SqlValue, r: string, v': SqlValue, r': string)
    requires Keyed(v) && Keyed(v') && IsText(v) && IsText(v') && Ends(r) && Ends(r')
    requires ToSqlLiteral(v) + r == ToSqlLiteral(v') + r'
    ensures LooksLike(v, v') && r == r'
  {
    hide ToSqlLiteral, Doubled, TextBody;
    TextLiteral(v);
    TextLiteral(v');
    assert (ToSqlLiteral(v) + r)[1..] == Doubled(TextBody(v), '\'') + "'" + r;
    assert (ToSqlLiteral(v') + r')[1..] == Doubled(TextBody(v'), '\'') + "'" + r';
    DoubledUnique(TextBody(v), r, TextBody(v'), r');
  }

  /** What follows the first literal of a list. */
  function RestOf(vs: seq<SqlValue>, r: string): string
    requires vs != []
  {
    if |vs| == 1 then r else ", " + (LiteralList(vs[1..]) + r)
  }

  lemma {:induction false} ListIs(vs: seq<SqlValue>, r: string)
    requires vs != []
    ensures LiteralList(vs) + r == ToSqlLiteral(vs[0]) + RestOf(vs, r)
  {
    hide ToSqlLiteral;
  }

  /** The elements of an array can be told apart, and from what follows its bracket. */
  lemma {:induction false} ListUnique(vs: seq<SqlValue>, r: string, ws: seq<SqlValue>, r': string)
    requires AllKeyed(vs) && AllKeyed(ws) && r != "" && r[0] == ']' && r' != "" && r'[0] == ']'
    requires LiteralList(vs) + r == LiteralList(ws) + r'
    ensures AllLookLike(vs, ws) && r == r'
    decreases vs, 0
  {
    hide ToSqlLiteral, Keyed, LooksLike, LiteralList;
    if vs == [] || ws == [] {
      EmptyList(vs, r, ws, r');
    } else {
      var t, t' := RestOf(vs, r), RestOf(ws, r');
      ListIs(vs, r);
      ListIs(ws, r');
      FirstUnique(vs[0], t, ws[0], t');
      if |vs| > 1 {
        assert |ws| > 1;
        assert t[2..] == LiteralList(vs[1..]) + r && t'[2..] == LiteralList(ws[1..]) + r';
        ListUnique(vs[1..], r, ws[1..], r');
        AlikeCons(vs, ws);
      }
    }
  }

  lemma {:induction false} AlikeCons(vs: seq<SqlValue>, ws: seq<SqlValue>)
    requires vs != [] && ws != [] && AllKeyed(vs) && AllKeyed(ws)
    requires LooksLike(vs[0], ws[0]) && AllLookLike(vs[1..], ws[1..])
    ensures AllLookLike(vs, ws)
  {
    hide LooksLike, Keyed;
    forall i | 0 <= i < |vs|
      ensures LooksLike(vs[i], ws[i])
    {
      if i > 0 {
        assert vs[1..][i - 1] == vs[i] && ws[1..][i - 1] == ws[i];
      }
    }
  }

  lemma {:induction false} EmptyList(vs: seq<SqlValue>, r: string, ws: seq<SqlValue>, r': string)
    requires AllKeyed(vs) && AllKeyed(ws) && r != "" && r[0] == ']' && r' != "" && r'[0] == ']'
    requires LiteralList(vs) + r == LiteralList(ws) + r' && (vs == [] || ws == [])
    ensures vs == [] && ws == [] && r == r'
  {
    hide ToSqlLiteral, Keyed;
    NoElements();
    if vs != [] {
      FirstChar(vs[0]);
      ListIs(vs, r);
    } else if ws != [] {
      FirstChar(ws[0]);
      ListIs(ws, r');
    }
    assert "" + r == r && "" + r' == r';
  }

  lemma {:induction false} NoElements()
    ensures LiteralList([]) == ""
  {
  }

  lemma {:induction false} BareUnique(a: string, r: string, b: string, r': string)
    requires Bare(a) && Bare(b) && a + r == b + r' && Ends(r) && Ends(r')
    ensures a == b && r == r'
  {
    var t := a + r;
    NotLonger(a, r, b, r');
    NotLonger(b, r', a, r);
    assert a == t[..|a|] && b == (b + r')[..|b|] && r == t[|a|..] && r' == (b + r')[|b|..];
  }

  lemma {:induction false} NotLonger(a: string, r: string, b: string, r': string)
    requires Bare(b) && a + r == b + r' && Ends(r)
    ensures |b| <= |a|
  {
    assert forall i :: 0 <= i < |b| ==> (b + r')[i] == b[i] && b[i] in b;
    assert r != "" ==> (a + r)[|a|] == r[0];
  }

  lemma {:induction false} MoreUnique(ps: seq<SqlValue>, qs: seq<SqlValue>)
    requires AllKeyed(ps) && AllKeyed(qs) && More(ps) == More(qs)
    ensures AllLookLike(ps, qs)
    decreases |ps|
  {
    hide ToSqlLiteral, Keyed, LooksLike;
    if ps != [] && qs != [] {
      MoreEnds(ps[1..]);
      MoreEnds(qs[1..]);
      assert More(ps)[1..] == ToSqlLiteral(ps[0]) + More(ps[1..]);
      assert More(qs)[1..] == ToSqlLiteral(qs[0]) + More(qs[1..]);
      FirstUnique(ps[0], More(ps[1..]), qs[0], More(qs[1..]));
      MoreUnique(ps[1..], qs[1..]);
      AlikeCons(ps, qs);
    }
  }

  lemma {:induction false} WrittenUnique(ps: seq<SqlValue>, qs: seq<SqlValue>)
    requires AllKeyed(ps) && AllKeyed(qs) && Written(ps) == Written(qs)
    ensures AllLookLike(ps, qs)
  {
    hide ToSqlLiteral, Keyed, More, LooksLike;
    if ps != [] {
      FirstChar(ps[0]);
    }
    if qs != [] {
      FirstChar(qs[0]);
    }
    if ps != [] && qs != [] {
      MoreEnds(ps[1..]);
      MoreEnds(qs[1..]);
      FirstUnique(ps[0], More(ps[1..]), qs[0], More(qs[1..]));
      MoreUnique(ps[1..], qs[1..]);
      AlikeCons(ps, qs);
    }
  }

  /** Two values have the same literal exactly when they look alike. */
  lemma {:induction false} SameLiteralIff(v: SqlValue, w: SqlValue)
    requires Keyed(v) && Keyed(w)
    ensures ToSqlLiteral(v) == ToSqlLiteral(w) <==> LooksLike(v, w)
  {
    hide ToSqlLiteral, Keyed, LooksLike;
    if ToSqlLiteral(v) == ToSqlLiteral(w) {
      FirstUnique(v, "", w, "");
    }
    if LooksLike(v, w) {
      LooksSame(v, w);
    }
  }

  // ----- Where the parameters begin -----

  /** Up to any character but a quote, doubled text has an even number of quotes. */
  lemma {:induction false} DoubledEven(s: string, i: nat)
    requires i <= |Doubled(s, '\'')| && (i < |Doubled(s, '\'')| ==> Doubled(s, '\'')[i] != '\'')
    ensures Count(Doubled(s, '\'')[..i], '\'') % 2 == 0
  {
    var d := Doubled(s, '\'');
    if s != "" && i > 0 {
      var n := if s[0] == '\'' then 2 else 1;
      assert d[n..] == Doubled(s[1..], '\'');
      if i >= n {
        DoubledEven(s[1..], i - n);
        assert d[..i] == d[..n] + d[n..][..i - n];
        CountCat(d[..n], d[n..][..i - n], '\'');
        assert if n == 2 then d[..n] == ['\'', '\''] else d[..n] == [s[0]];
        assert Count(['\'', '\''], '\'') == 2 by { assert ['\'', '\''][1..] == ['\'']; }
        assert Count([s[0]], '\'') == if s[0] == '\'' then 1 else 0;
      }
    }
  }

  lemma {:induction false} LiteralEven(v: SqlValue)
    requires Keyed(v)
    ensures Count(ToSqlLiteral(v), '\'') % 2 == 0
    decreases v, 1
  {
    hide ToSqlLiteral, Doubled, TextBody, Count;
    if IsText(v) {
      var d := Doubled(TextBody(v), '\'');
      TextLiteral(v);
      DoubledEven(TextBody(v), |d|);
      assert d[..|d|] == d;
      CountCat("'" + d, "'", '\'');
      CountCat("'", d, '\'');
      CountOne('\'');
    } else if v.Array? {
      ArrayLiteral(v.elems);
      ListEven(v.elems);
      CountCat("ARRAY[", LiteralList(v.elems) + "]", '\'');
      CountCat(LiteralList(v.elems), "]", '\'');
      CountNone("ARRAY[", '\'');
      CountNone("]", '\'');
    } else {
      BareLiteral(v);
      CountNone(ToSqlLiteral(v), '\'');
    }
  }

  lemma {:induction false} ListEven(vs: seq<SqlValue>)
    requires AllKeyed(vs)
    ensures Count(LiteralList(vs), '\'') % 2 == 0
    decreases vs, 0
  {
    hide ToSqlLiteral, Keyed, Count, LiteralList;
    NoElements();
    CountNone("", '\'');
    if vs != [] {
      LiteralEven(vs[0]);
      ListEven(vs[1..]);
      ListIs(vs, "");
      assert LiteralList(vs) + "" == LiteralList(vs) && LiteralList(vs[1..]) + "" == LiteralList(vs[1..]);
      CountCat(ToSqlLiteral(vs[0]), RestOf(vs, ""), '\'');
      CountCat(", ", LiteralList(vs[1..]), '\'');
      CountNone(", ", '\'');
    }
  }

  /** A bar inside a literal has an odd number of quotes before it. */
  lemma {:induction false} BarInLiteral(v: SqlValue, i: nat)
    requires Keyed(v) && i < |ToSqlLiteral(v)| && ToSqlLiteral(v)[i] == '|'
    ensures Count(ToSqlLiteral(v)[..i], '\'') % 2 == 1
    decreases v, 1
  {
    hide ToSqlLiteral, Doubled, TextBody, Count;
    assert ToSqlLiteral(v)[i] in ToSqlLiteral(v);
    if IsText(v) {
      var d := Doubled(TextBody(v), '\'');
      TextLiteral(v);
      assert i > 0 && i < |d| + 1 && d[i - 1] == '|';
      DoubledEven(TextBody(v), i - 1);
      assert ToSqlLiteral(v)[..i] == "'" + d[..i - 1];
      CountCat("'", d[..i - 1], '\'');
      CountOne('\'');
    } else if v.Array? {
      var list := LiteralList(v.elems);
      ArrayLiteral(v.elems);
      assert 6 <= i < 6 + |list| && list[i - 6] == '|';
      BarInList(v.elems, i - 6);
      assert ToSqlLiteral(v)[..i] == "ARRAY[" + list[..i - 6];
      CountCat("ARRAY[", list[..i - 6], '\'');
      CountNone("ARRAY[", '\'');
    } else {
      BareLiteral(v);
    }
  }

  lemma {:induction false} BarInList(vs: seq<SqlValue>, i: nat)
    requires AllKeyed(vs) && i < |LiteralList(vs)| && LiteralList(vs)[i] == '|'
    ensures Count(LiteralList(vs)[..i], '\'') % 2 == 1
    decreases vs, 0
  {
    hide ToSqlLiteral, Keyed, Count, LiteralList;
    NoElements();
    var lit, list := ToSqlLiteral(vs[0]), LiteralList(vs);
    ListIs(vs, "");
    assert list + "" == list;
    if i < |lit| {
      BarInLiteral(vs[0], i);
      assert list[..i] == lit[..i];
    } else {
      var more, n := LiteralList(vs[1..]), i - |lit| - 2;
      assert more + "" == more;
      assert list[i] == RestOf(vs, "")[i - |lit|];
      BarInList(vs[1..], n);
      LiteralEven(vs[0]);
      assert list[..i] == lit + (", " + more[..n]);
      CountCat(lit, ", " + more[..n], '\'');
      CountCat(", ", more[..n], '\'');
      CountNone(", ", '\'');
    }
  }

  lemma {:induction false} MoreEven(ps: seq<SqlValue>)
    requires AllKeyed(ps)
    ensures Count(More(ps), '\'') % 2 == 0
  {
    hide ToSqlLiteral, Keyed;
    if ps != [] {
      LiteralEven(ps[0]);
      MoreEven(ps[1..]);
      CountCat("," + ToSqlLiteral(ps[0]), More(ps[1..]), '\'');
      CountCat(",", ToSqlLiteral(ps[0]), '\'');
      CountNone(",", '\'');
    }
  }

  lemma {:induction false} WrittenEven(ps: seq<SqlValue>)
    requires AllKeyed(ps)
    ensures Count(Written(ps), '\'') % 2 == 0
  {
    hide ToSqlLiteral, Keyed, More;
    if ps != [] {
      LiteralEven(ps[0]);
      MoreEven(ps[1..]);
      CountCat(ToSqlLiteral(ps[0]), More(ps[1..]), '\'');
    }
  }

  lemma {:induction false} BarInMore(ps: seq<SqlValue>, i: nat)
    requires AllKeyed(ps) && i < |More(ps)| && More(ps)[i] == '|'
    ensures Count(More(ps)[..i], '\'') % 2 == 1
    decreases ps, 0
  {
    hide ToSqlLiteral, Keyed;
    assert i > 0;
    var rest := ToSqlLiteral(ps[0]) + More(ps[1..]);
    assert More(ps) == "," + rest;
    BarAfter(ps[0], ps[1..], i - 1);
    assert More(ps)[..i] == "," + rest[..i - 1];
    CountCat(",", rest[..i - 1], '\'');
    CountNone(",", '\'');
  }

  lemma {:induction false} BarAfter(v: SqlValue, ps: seq<SqlValue>, i: nat)
    requires Keyed(v) && AllKeyed(ps)
    requires i < |ToSqlLiteral(v) + More(ps)| && (ToSqlLiteral(v) + More(ps))[i] == '|'
    ensures Count((ToSqlLiteral(v) + More(ps))[..i], '\'') % 2 == 1
    decreases ps, 1
  {
    hide ToSqlLiteral, Keyed, More;
    var lit, more := ToSqlLiteral(v), More(ps);
    if i < |lit| {
      BarInLiteral(v, i);
      assert (lit + more)[..i] == lit[..i];
    } else {
      BarInMore(ps, i - |lit|);
      assert (lit + more)[..i] == lit + more[..i - |lit|];
      CountCat(lit, more[..i - |lit|], '\'');
      LiteralEven(v);
    }
  }

  lemma {:induction false} BarInWritten(ps: seq<SqlValue>, i: nat)
    requires AllKeyed(ps) && i < |Written(ps)| && Written(ps)[i] == '|'
    ensures Count(Written(ps)[..i], '\'') % 2 == 1
  {
    hide ToSqlLiteral, Keyed, More;
    BarAfter(ps[0], ps[1..], i);
  }

  /** The last bar that is outside quotes ends the SQL text, whatever bars and quotes that text contains. */
  lemma {:induction false} SplitUnique(s: string, ps: seq<SqlValue>, s': string, ps': seq<SqlValue>)
    requires AllKeyed(ps) && AllKeyed(ps')
    requires s + "|" + Written(ps) == s' + "|" + Written(ps')
    ensures s == s' && AllLookLike(ps, ps')
  {
    hide Written, Keyed;
    var a, b := Written(ps), Written(ps');
    NoEarlierBar(s, a, s', b, ps, ps');
    NoEarlierBar(s', b, s, a, ps', ps);
    var t := s + "|" + a;
    assert s == t[..|s|] && s' == (s' + "|" + b)[..|s|];
    assert a == t[|s| + 1..] && b == (s' + "|" + b)[|s| + 1..];
    WrittenUnique(ps, ps');
  }

  lemma {:induction false} NoEarlierBar(s: string, a: string, s': string, b: string, ps: seq<SqlValue>, ps': seq<SqlValue>)
    requires AllKeyed(ps) && AllKeyed(ps') && a == Written(ps) && b == Written(ps')
    requires s + "|" + a == s' + "|" + b
    ensures |s'| <= |s|
  {
    hide Written, Keyed, Count;
    WrittenEven(ps);
    WrittenEven(ps');
    CountNone("|", '\'');
    if |s| < |s'| {
      var i := |s'| - |s| - 1;
      var t, t' := s + "|" + a, s' + "|" + b;
      assert a == t[|s| + 1..] && t'[|s'|] == '|' && a[i] == t[|s'|];
      assert a[i + 1..] == t[|s'| + 1..] && b == t'[|s'| + 1..];
      assert a == a[..i] + "|" + b;
      CountCat(a[..i] + "|", b, '\'');
      CountCat(a[..i], "|", '\'');
      BarInWritten(ps, i);
    }
  }

  // ----- Keys -----

  lemma {:induction false} ColonUnique(t: string, r: string, t': string, r': string)
    requires ':' !in t && ':' !in t' && t + ":" + r == t' + ":" + r'
    ensures t == t' && r == r'
  {
    var k, k' := t + ":" + r, t' + ":" + r';
    assert k[|t|] == ':' && k'[|t'|] == ':';
    assert forall i :: 0 <= i < |t| ==> k[i] == t[i];
    assert forall i :: 0 <= i < |t'| ==> k'[i] == t'[i];
    assert |t| == |t'|;
    assert t == k[..|t|] && t' == k'[..|t|] && r == k[|t| + 1..] && r' == k'[|t| + 1..];
  }

  /** Two queries share a key exactly when their tables and texts are the same and their values look alike. */
  lemma {:induction false} KeysAgreeIff(t: string, s: string, ps: seq<SqlValue>, t': string, s': string, ps': seq<SqlValue>)
    requires ':' !in t && ':' !in t' && AllKeyed(ps) && AllKeyed(ps')
    ensures MakeKey(t, s, ps) == MakeKey(t', s', ps') <==> t == t' && s == s' && AllLookLike(ps, ps')
  {
    hide Join, Written, Keyed, ToSqlLiteral, LooksLike;
    if MakeKey(t, s, ps) == MakeKey(t', s', ps') {
      var rest, rest' := s + "|" + Written(ps), s' + "|" + Written(ps');
      JoinIsWritten(ps);
      JoinIsWritten(ps');
      assert MakeKey(t, s, ps) == t + ":" + rest && MakeKey(t', s', ps') == t' + ":" + rest';
      ColonUnique(t, rest, t', rest');
      SplitUnique(s, ps, s', ps');
    }
    if AllLookLike(ps, ps') {
      forall i | 0 <= i < |ps|
        ensures Literals(ps)[i] == Literals(ps')[i]
      {
        LooksSame(ps[i], ps'[i]);
      }
      assert Literals(ps) == Literals(ps');
    }
  }

  lemma {:induction false} PlainAlike(v: SqlValue, w: SqlValue)
    requires Plain(v) && Plain(w) && LooksLike(v, w)
    ensures v == w
  {
    hide IntText;
    if v.Integer? {
      IntTextInjective(v.n, w.n);
    }
  }

  /** Among texts, integers, truth values and NULL only equal values look alike, so their keys determine the query. */
  lemma {:induction false} KeyInjective(t: string, s: string, ps: seq<SqlValue>, t': string, s': string, ps': seq<SqlValue>)
    requires ':' !in t && ':' !in t' && AllPlain(ps) && AllPlain(ps')
    requires MakeKey(t, s, ps) == MakeKey(t', s', ps')
    ensures t == t' && s == s' && ps == ps'
  {
    hide MakeKey, IntText;
    KeysAgreeIff(t, s, ps, t', s', ps');
    forall i | 0 <= i < |ps|
      ensures ps[i] == ps'[i]
    {
      PlainAlike(ps[i], ps'[i]);
    }
  }

  lemma {:induction false} NoPairs(s: string)
    requires '\'' !in s
    ensures Paired(s) && Undoubled(s) == s
  {
    if s != "" {
      NoPairs(s[1..]);
      assert [s[0]] + s[1..] == s;
    }
  }

  /** Every integer shares its key with the float that displays like it, and a text with the UUID that reads like it. */
  lemma {:induction false} ValuesCollide(t: string, s: string, n: int, u: string)
    requires ':' !in t && '\'' !in u
    ensures MakeKey(t, s, [Float(IntText(n))]) == MakeKey(t, s, [Integer(n)])
    ensures MakeKey(t, s, [Uuid(u)]) == MakeKey(t, s, [Txt(u)])
  {
    hide MakeKey, Decimal;
    assert FloatText(IntText(n));
    NoPairs(u);
    KeysAgreeIff(t, s, [Float(IntText(n))], t, s, [Integer(n)]);
    KeysAgreeIff(t, s, [Uuid(u)], t, s, [Txt(u)]);
  }

  /** JSON is not quote-doubled, so that with single quotes in it the limits between two values can be read differently. */
  lemma {:induction false} JsonCollides(t: string, s: string, a: string, b: string, c: string)
    requires '\'' !in a && '\'' !in c
    ensures MakeKey(t, s, [Json(a + "','" + b), Txt(c)]) == MakeKey(t, s, [Txt(a), Json(b + "','" + c)])
  {
    hide Join, Literals, ToSqlLiteral;
    JoinTwo(Json(a + "','" + b), Txt(c));
    JoinTwo(Txt(a), Json(b + "','" + c));
    InQuotes(a);
    InQuotes(c);
    InQuotes(a + "','" + b);
    InQuotes(b + "','" + c);
    assert "'" + (a + "','" + b) + "'" + "," + ("'" + c + "'") == "'" + a + "'" + "," + ("'" + (b + "','" + c) + "'");
  }

  lemma {:induction false} InQuotes(s: string)
    ensures ToSqlLiteral(Json(s)) == "'" + s + "'"
    ensures '\'' !in s ==> ToSqlLiteral(Txt(s)) == "'" + s + "'"
  {
    hide Doubled;
    if '\'' !in s {
      NothingToDouble(s, '\'');
    }
  }

  lemma {:induction false} JoinTwo(v: SqlValue, w: SqlValue)
    ensures Join(Literals([v, w]), ",") == ToSqlLiteral(v) + "," + ToSqlLiteral(w)
  {
    hide ToSqlLiteral;
    var ls := Literals([v, w]);
    assert ls == [ToSqlLiteral(v), ToSqlLiteral(w)] && ls[1..] == [ToSqlLiteral(w)];
  }

  /** The prefix that an invalidation looks for is found on exactly the keys made for its table. */
  lemma {:induction false} PrefixIff(t: string, t': string, s: string, ps: seq<SqlValue>)
    requires ':' !in t && ':' !in t'
    ensures t + ":" <= MakeKey(t', s, ps) <==> t == t'
  {
    hide Join, Literals;
    var k := MakeKey(t', s, ps);
    var rest := s + "|" + Join(Literals(ps), ",");
    assert k == t' + ":" + rest;
    if t + ":" <= k {
      assert k == t + ":" + k[|t| + 1..];
      ColonUnique(t, k[|t| + 1..], t', rest);
    }
  }
}
