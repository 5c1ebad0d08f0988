/** A whole statement of the query builder, read back part by part. */
module QueryReading {
  import opened Text
  import opened Values
  import opened Tokens
  import opened Conditions
  import opened Queries
  import opened SetOps
  import opened Nesting

  /** A WITH entry; its body is read like a statement of its own. */
  datatype Definition = Definition(name: string, columns: seq<string>, body: seq<Tok>)

  /** `clauses` is all that comes after the WHERE clause, `more` the other side of a set operation. */
  datatype Block = Block(recursive: bool, defs: seq<Definition>, cols: string, source: string, filter: Option<seq<Tok>>,
                         clauses: string, more: Option<(Combination, seq<Tok>)>)

  // ----- Reading WITH -----

  /** Where the parenthesis that was opened last before the tokens is closed. */
  function Closing(ts: seq<Tok>, d: nat): (i: Option<nat>)
    ensures i.Some? ==> i.value < |ts|
  {
    if ts == [] then None
    else if d + Net(ts[0]) <= 0 then Some(0)
    else
      match Closing(ts[1..], d + Net(ts[0]))
      case None => None
      case Some(i) => Some(i + 1)
  }

  /** The name of an entry and its columns, if any are given. */
  function ReadDefHead(s: string): Option<(string, seq<string>)> {
    var n := WordRun(s);
    var rest := s[n..];
    if rest == " AS (" then Some((s[..n], []))
    else if " (" <= rest && |rest| >= 8 && rest[|rest| - 6..] == ") AS (" then Some((s[..n], SplitNames(rest[2..|rest| - 6])))
    else None
  }

  function ReadDefs(ts: seq<Tok>): Option<(seq<Definition>, seq<Tok>)>
    decreases |ts|
  {
    if ts == [] || !ts[0].Frag? then None
    else
      match ReadDefHead(ts[0].s)
      case None => None
      case Some(head) =>
        match Closing(ts[1..], 1)
        case None => None
        case Some(i) =>
          var def, rest := Definition(head.0, head.1, ts[1..][..i]), ts[1..][i + 1..];
          if ts[1..][i] == Frag(")") then Some(([def], rest))
          else if ts[1..][i] != Frag("), ") then None
          else
            match ReadDefs(rest)
            case None => None
            case Some(more) => Some(([def] + more.0, more.1))
  }

  datatype With = With(recursive: bool, defs: seq<Definition>, rest: seq<Tok>)

  function ReadWith(ts: seq<Tok>): Option<With> {
    if ts != [] && (ts[0] == Frag("WITH ") || ts[0] == Frag("WITH RECURSIVE ")) then
      match ReadDefs(ts[1..])
      case None => None
      case Some(defs) =>
        if defs.1 != [] && defs.1[0] == Frag(" ") then Some(With(ts[0] == Frag("WITH RECURSIVE "), defs.0, defs.1[1..]))
        else None
    else Some(With(false, [], ts))
  }

  // ----- Reading the rest of a statement -----

  /** The first token outside parentheses that starts a part of a kind, or the end. */
  function PartAt(ts: seq<Tok>, d: nat, starts: Tok -> bool): (n: nat)
    ensures n <= |ts|
  {
    if ts == [] || (d == 0 && starts(ts[0])) then 0
    else if d + Net(ts[0]) < 0 then |ts|
    else 1 + PartAt(ts[1..], d + Net(ts[0]), starts)
  }

  predicate IsSet(t: Tok) {
    t.Frag? && SetStart(t.s)
  }

  predicate IsClause(t: Tok) {
    t.Frag? && ClauseStart(t.s)
  }

  /** Where a word first occurs. */
  function WordAt(s: string, word: string): (n: nat)
    ensures n <= |s|
  {
    if s == "" || word <= s then 0 else 1 + WordAt(s[1..], word)
  }

  /** What stands between SELECT and the first FROM, and what follows it. */
  function ReadSelected(s: string): Option<(string, string)> {
    if !("SELECT " <= s) then None
    else
      var n := WordAt(s[7..], " FROM ");
      if n + 6 <= |s[7..]| then Some((s[7..][..n], s[7..][n + 6..])) else None
  }

  function ReadFilter(ts: seq<Tok>): Option<Option<seq<Tok>>> {
    if ts == [] then Some(None)
    else if ts[0] == Frag(" WHERE ") then Some(Some(ts[1..]))
    else None
  }

  function ReadClauses(ts: seq<Tok>): Option<string> {
    if ts == [] then Some("")
    else if |ts| == 1 && ts[0].Frag? then Some(ts[0].s)
    else None
  }

  function ReadMore(ts: seq<Tok>): Option<Option<(Combination, seq<Tok>)>> {
    if ts == [] then Some(None)
    else if !ts[0].Frag? then None
    else
      match ReadCombination(ts[0].s)
      case None => None
      case Some(c) => Some(Some((c, ts[1..])))
  }

  function ReadBlock(ts: seq<Tok>): Option<Block> {
    match ReadWith(ts)
    case None => None
    case Some(with) =>
      if with.rest == [] || !with.rest[0].Frag? then None
      else
        var body := with.rest[1..];
        var k := PartAt(body, 0, IsSet);
        var main := body[..k];
        var c := PartAt(main, 0, IsClause);
        var head, filter, clauses, more :=
          ReadSelected(with.rest[0].s), ReadFilter(main[..c]), ReadClauses(main[c..]), ReadMore(body[k..]);
        if head.None? || filter.None? || clauses.None? || more.None? then None
        else Some(Block(with.recursive, with.defs, head.value.0, head.value.1, filter.value, clauses.value, more.value))
  }

  // ----- What the caller's text must keep to -----

  predicate PlainName(s: string) {
    s != "" && forall i :: 0 <= i < |s| ==> s[i] != ' ' && s[i] != '(' && s[i] != ')' && s[i] != ','
  }

  predicate PlainNames(ns: seq<string>) {
    forall i :: 0 <= i < |ns| ==> PlainName(ns[i])
  }

  /** The word does not occur before the end of the text, not even with what follows it. */
  predicate FirstAfter(s: string, word: string) {
    forall i :: 0 <= i < |s| ==> !(word <= (s + word)[i..])
  }

  predicate CalmClauses(cs: seq<string>) {
    cs == [] || (IsClause(Frag(Spaces(cs))) && !SetStart(Spaces(cs)) && Opened(Spaces(cs)) == 0)
  }

  /** Parentheses are closed, names are plain, and no text of the caller starts another part of the statement. */
  predicate CalmQuery(q: Query)
    decreases q, 1
  {
    && FirstAfter(q.cols, " FROM ") && Opened(q.cols) == 0 && Opened(q.table + Spaces(q.joins)) == 0
    && CalmItems(q.conds) && CalmClauses(q.clauses) && CalmCtes(q.ctes)
    && (q.setOp.SetWith? ==> CalmQuery(q.setOp.rhs))
  }

  predicate CalmCtes(ctes: seq<Cte>)
    decreases ctes, 0
  {
    ctes != [] ==>
      assert ctes[0].sub < ctes[0];
      PlainName(ctes[0].name) && PlainNames(ctes[0].columns) && CalmQuery(ctes[0].sub) && CalmCtes(ctes[1..])
  }

  // ----- Everything is balanced -----

  lemma {:induction false} MovedLevel(d: Dialect, ts: seq<Tok>, n: nat, depth: nat)
    ensures Level(MoveBy(d, ts, n), depth) == Level(ts, depth)
  {
    hide Net;
    if d.Postgres? && ts != [] {
      assert Shift(ts, n)[1..] == Shift(ts[1..], n);
      ShiftedNet(ts[0], n);
      if depth + Net(ts[0]) >= 0 {
        MovedLevel(d, ts[1..], n, depth + Net(ts[0]));
      }
    }
  }

  lemma {:induction false} ShiftedNet(t: Tok, n: nat)
    ensures Net(ShiftTok(t, n)) == Net(t)
  {
  }

  lemma {:induction false} BlanksOpened(s: string)
    ensures Opened(TrimStart(s)) == Opened(s)
  {
    if s != "" && IsSpace(s[0]) {
      BlanksOpened(s[1..]);
      OpenedCat([s[0]], s[1..]);
      assert [s[0]] + s[1..] == s;
      NoParens([s[0]]);
    }
  }

  lemma {:induction false} CutOpened(s: string)
    ensures Opened(CutSelect(s)) == Opened(s)
  {
    hide Opened;
    var t := TrimStart(s);
    BlanksOpened(s);
    if "SELECT" <= t {
      assert t == "SELECT" + t[6..];
      OpenedCat("SELECT", t[6..]);
      NoParens("SELECT");
      BlanksOpened(t[6..]);
    }
  }

  lemma {:induction false} CutLevel(ts: seq<Tok>)
    ensures Level(CutToks(ts), 0) == Level(ts, 0)
  {
    if ts != [] && ts[0].Frag? {
      CutOpened(ts[0].s);
      assert CutToks(ts)[1..] == ts[1..];
    }
  }

  lemma {:induction false} HeadOpened(q: Query)
    requires Opened(q.cols) == 0 && Opened(q.table + Spaces(q.joins)) == 0
    ensures Opened(SelectHead(q)) == 0
  {
    hide Opened;
    var source := q.table + Spaces(q.joins);
    NoParens("SELECT ");
    NoParens(" FROM ");
    KeyOpened("SELECT ", q.cols, " FROM ");
    OpenedCat("SELECT " + q.cols + " FROM ", source);
    assert SelectHead(q) == "SELECT " + q.cols + " FROM " + source;
  }

  lemma {:induction false} NamesOpened(ns: seq<string>)
    requires PlainNames(ns)
    ensures Opened(Join(ns, ", ")) == 0
  {
    hide Opened;
    if ns == [] {
      NoParens("");
    } else {
      NoParens(ns[0]);
      if |ns| > 1 {
        NamesOpened(ns[1..]);
        NoParens(", ");
        OpenedCat(ns[0] + ", ", Join(ns[1..], ", "));
        OpenedCat(ns[0], ", ");
      }
    }
  }

  lemma {:induction false} CteHeadOpened(c: Cte)
    requires PlainName(c.name) && PlainNames(c.columns)
    ensures Opened(CteHead(c)) == 1
  {
    hide Opened, PlainNames;
    var cols := if c.columns == [] then "" else " (" + Join(c.columns, ", ") + ")";
    NoParens(c.name);
    OpensText(" AS ", " AS (");
    OpensText(" ", " (");
    ClosesText("", ")");
    NamesOpened(c.columns);
    NoParens("");
    KeyOpened(" (", Join(c.columns, ", "), ")");
    KeyOpened(c.name, cols, " AS (");
  }

  lemma {:induction false} WrapBalanced(open: Tok, mid: seq<Tok>, close: Tok)
    requires Balanced(mid) && Net(open) == 1 && Net(close) == -1
    ensures Balanced([open] + mid + [close])
  {
    hide Net;
    LevelShift(mid, 0, 1);
    LevelOne(open, 0);
    LevelOne(close, 1);
    LevelCat([open], mid, 0);
    LevelCat([open] + mid, [close], 0);
  }

  lemma {:induction false} BalancedCat(a: seq<Tok>, b: seq<Tok>)
    requires Balanced(a) && Balanced(b)
    ensures Balanced(a + b)
  {
    LevelCat(a, b, 0);
  }

  lemma {:induction false} FragBalanced(s: string)
    requires Opened(s) == 0
    ensures Balanced([Frag(s)])
  {
    LevelOne(Frag(s), 0);
  }

  lemma {:induction false} WithBalanced(ctes: seq<Cte>)
    ensures Balanced([Frag(WithWord(ctes))])
  {
    hide Balanced, Opened;
    if exists i :: 0 <= i < |ctes| && ctes[i].recursive {
      RecursiveOpened();
    } else {
      NoParens("WITH ");
    }
    FragBalanced(WithWord(ctes));
  }

  lemma {:induction false} RecursiveOpened()
    ensures Opened("WITH RECURSIVE ") == 0
  {
    hide Opened;
    NoParens("WITH RECURSIVE ");
  }

  lemma {:induction false} BlankBalanced()
    ensures Balanced([Frag(" ")])
  {
    hide Balanced, Opened;
    NoParens(" ");
    FragBalanced(" ");
  }

  lemma {:induction false} CloseNet(another: bool)
    ensures Net(Frag(if another then "), " else ")")) == -1
  {
    ClosesText(", ", "), ");
    ClosesText("", ")");
  }

  lemma {:induction false} CtesBalanced(d: Dialect, ctes: seq<Cte>)
    requires CalmCtes(ctes)
    ensures Balanced(CtesToks(d, ctes))
    decreases ctes, 1
  {
    hide Balanced;
    if ctes == [] {
      NothingBalanced();
    } else {
      CteListBalanced(d, ctes, 0);
      WithBalanced(ctes);
      BlankBalanced();
      BalancedCat([Frag(WithWord(ctes))], CteListToks(d, ctes, 0));
      BalancedCat([Frag(WithWord(ctes))] + CteListToks(d, ctes, 0), [Frag(" ")]);
    }
  }

  lemma {:induction false} NothingBalanced()
    ensures Balanced([])
  {
  }

  lemma {:induction false} CteListBalanced(d: Dialect, ctes: seq<Cte>, n: nat)
    requires CalmCtes(ctes)
    ensures Balanced(CteListToks(d, ctes, n))
    decreases ctes, 0
  {
    hide Balanced, QueryToks, MoveBy, CteHead, Params, Net, CalmQuery, PlainName, PlainNames;
    if ctes == [] {
      NothingBalanced();
    } else {
      assert ctes[0].sub < ctes[0];
      var sub := ctes[0].sub;
      var body := MoveBy(d, QueryToks(d, sub), n);
      var open, close := Frag(CteHead(ctes[0])), Frag(if |ctes| > 1 then "), " else ")");
      var more := CteListToks(d, ctes[1..], n + |Params(sub)|);
      QueryBalanced(d, sub);
      MovedBalanced(d, QueryToks(d, sub), n);
      CteNet(ctes[0]);
      CloseNet(|ctes| > 1);
      CteListBalanced(d, ctes[1..], n + |Params(sub)|);
      WrapBalanced(open, body, close);
      BalancedCat([open] + body + [close], more);
    }
  }

  lemma {:induction false} CteNet(c: Cte)
    requires PlainName(c.name) && PlainNames(c.columns)
    ensures Net(Frag(CteHead(c))) == 1
  {
    CteHeadOpened(c);
  }

  lemma {:induction false} MovedBalanced(d: Dialect, ts: seq<Tok>, n: nat)
    requires Balanced(ts)
    ensures Balanced(MoveBy(d, ts, n))
  {
    MovedLevel(d, ts, n, 0);
  }

  lemma {:induction false} CutBalanced(ts: seq<Tok>)
    requires Balanced(ts)
    ensures Balanced(CutToks(ts))
  {
    CutLevel(ts);
  }

  lemma {:induction false} KindOpened(k: SetKind)
    ensures Opened(" " + KindText(k) + " SELECT ") == 0
  {
    hide Opened, KindText;
    KindNoParens(k);
    NoParens(KindText(k));
    NoParens(" ");
    NoParens(" SELECT ");
    KeyOpened(" ", KindText(k), " SELECT ");
  }

  lemma {:induction false} KindNoParens(k: SetKind)
    ensures '(' !in KindText(k) && ')' !in KindText(k)
  {
  }

  lemma {:induction false} SetBalanced(d: Dialect, s: SetOp, n: nat)
    requires s.SetWith? ==> CalmQuery(s.rhs)
    ensures Balanced(SetToks(d, s, n))
    decreases s, 2
  {
    hide Balanced, QueryToks, MoveBy, CutToks, CalmQuery;
    if s.NoSet? {
      NothingBalanced();
    } else {
      QueryBalanced(d, s.rhs);
      CutBalanced(QueryToks(d, s.rhs));
      MovedBalanced(d, CutToks(QueryToks(d, s.rhs)), n);
      KindOpened(s.kind);
      FragBalanced(" " + KindText(s.kind) + " SELECT ");
      BalancedCat([Frag(" " + KindText(s.kind) + " SELECT ")], MoveBy(d, CutToks(QueryToks(d, s.rhs)), n));
    }
  }

  lemma {:induction false} WhereBalanced(d: Dialect, conds: seq<Item>, off: nat)
    requires CalmItems(conds)
    ensures Balanced(WhereToks(d, conds, off)) && GoesOn(WhereToks(d, conds, off), 0)
  {
    hide Balanced, ItemsToks, GoesOn, Starts;
    ItemsCalm(d, conds, off);
    FlatCalm([]);
    NoParens(" WHERE ");
    NoStart(" WHERE ");
    FlatCalm([Frag(" WHERE ")]);
    CalmCat([Frag(" WHERE ")], ItemsToks(d, conds, off));
  }

  lemma {:induction false} ClausesBalanced(cs: seq<string>)
    requires CalmClauses(cs)
    ensures Balanced(ClauseToks(cs))
  {
    NothingBalanced();
    if cs != [] {
      FragBalanced(Spaces(cs));
    }
  }

  lemma {:induction false} QueryBalanced(d: Dialect, q: Query)
    requires CalmQuery(q)
    ensures Balanced(QueryToks(d, q))
    decreases q, 1
  {
    hide Balanced, CtesToks, SetToks, WhereToks, ClauseToks, ItemsToks, ItemsParams, CteParams, SelectHead, Opened, GoesOn;
    var n := |CteParams(q.ctes)|;
    var n' := n + |ItemsParams(q.conds)|;
    QueryIs(d, q);
    CtesBalanced(d, q.ctes);
    HeadOpened(q);
    FragBalanced(SelectHead(q));
    WhereBalanced(d, q.conds, n + 1);
    ClausesBalanced(q.clauses);
    SetBalanced(d, q.setOp, n');
    PiecesBalanced(CtesToks(d, q.ctes), SelectHead(q), WhereToks(d, q.conds, n + 1), q.clauses, SetToks(d, q.setOp, n'));
  }

  lemma {:induction false} PiecesBalanced(a: seq<Tok>, head: string, b: seq<Tok>, cs: seq<string>, c: seq<Tok>)
    requires Balanced(a) && Balanced([Frag(head)]) && Balanced(b) && Balanced(ClauseToks(cs)) && Balanced(c)
    ensures Balanced(Pieces(a, head, b, cs, c))
  {
    hide Balanced, ClauseToks;
    BalancedCat(a, [Frag(head)]);
    BalancedCat(a + [Frag(head)], b);
    BalancedCat(a + [Frag(head)] + b, ClauseToks(cs));
    BalancedCat(a + [Frag(head)] + b + ClauseToks(cs), c);
  }

  // ----- The WITH clause is read -----

  lemma {:induction false} ClosingOf(mid: seq<Tok>, close: Tok, rest: seq<Tok>, d: nat, e: nat)
    requires Level(mid, d) >= 0 && e > 0 && Level(mid, d) + e + Net(close) == 0
    ensures Closing(mid + [close] + rest, d + e) == Some(|mid|)
  {
    hide Net;
    var ts := mid + [close] + rest;
    if mid == [] {
      assert ts[0] == close;
    } else {
      assert ts[0] == mid[0] && ts[1..] == mid[1..] + [close] + rest;
      ClosingOf(mid[1..], close, rest, d + Net(mid[0]), e);
    }
  }

  lemma {:induction false} PlainHaveNoCommas(ns: seq<string>)
    requires PlainNames(ns)
    ensures forall i :: 0 <= i < |ns| ==> ',' !in ns[i]
  {
    forall i | 0 <= i < |ns|
      ensures ',' !in ns[i]
    {
      assert PlainName(ns[i]);
    }
  }

  lemma {:induction false} DefHeadRead(c: Cte)
    requires PlainName(c.name) && PlainNames(c.columns)
    ensures ReadDefHead(CteHead(c)) == Some((c.name, c.columns))
  {
    hide SplitNames, PlainNames, Join;
    assert ' ' !in c.name;
    if c.columns == [] {
      WordRunOf(c.name, " AS (");
      assert CteHead(c) == c.name + " AS (" && CteHead(c)[|c.name|..] == " AS (" && CteHead(c)[..|c.name|] == c.name;
    } else {
      var names := Join(c.columns, ", ");
      var rest := " (" + names + ") AS (";
      WordRunOf(c.name, rest);
      assert CteHead(c) == c.name + rest && CteHead(c)[|c.name|..] == rest && CteHead(c)[..|c.name|] == c.name;
      assert rest[1] == '(' && " AS ("[1] == 'A';
      assert rest[|rest| - 6..] == ") AS (" && rest[2..|rest| - 6] == names;
      PlainHaveNoCommas(c.columns);
      NamesSplit(c.columns);
    }
  }

  /** The entries that are meant, the first of them with `n` parameters bound before it. */
  function Defined(d: Dialect, ctes: seq<Cte>, n: nat): seq<Definition> {
    if ctes == [] then []
    else
      [Definition(ctes[0].name, ctes[0].columns, MoveBy(d, QueryToks(d, ctes[0].sub), n))]
      + Defined(d, ctes[1..], n + |Params(ctes[0].sub)|)
  }

  lemma {:induction false} DefsRead(d: Dialect, ctes: seq<Cte>, n: nat, rest: seq<Tok>)
    requires CalmCtes(ctes) && ctes != []
    ensures ReadDefs(CteListToks(d, ctes, n) + rest) == Some((Defined(d, ctes, n), rest))
    decreases |ctes|
  {
    hide QueryToks, MoveBy, CteHead, Params, Net, CalmQuery, PlainName, PlainNames, ReadDefHead, Closing, Level;
    hide ReadDefs, CteListToks, Defined, CalmCtes;
    var sub := ctes[0].sub;
    var n' := n + |Params(sub)|;
    var body := MoveBy(d, QueryToks(d, sub), n);
    var open, close := CteHead(ctes[0]), if |ctes| > 1 then "), " else ")";
    var list := CteListToks(d, ctes[1..], n');
    FirstCte(d, ctes, n);
    DefHeadRead(ctes[0]);
    QueryBalanced(d, sub);
    MovedBalanced(d, QueryToks(d, sub), n);
    CloseNet(|ctes| > 1);
    ClosingOf(body, Frag(close), list + rest, 0, 1);
    DefRead(open, ctes[0].name, ctes[0].columns, body, close, list + rest);
    assert CteListToks(d, ctes, n) + rest == [Frag(open)] + (body + [Frag(close)] + (list + rest));
    if |ctes| > 1 {
      DefsRead(d, ctes[1..], n', rest);
    } else {
      assert list + rest == rest;
      var def := Definition(ctes[0].name, ctes[0].columns, body);
      assert [def] + Defined(d, ctes[1..], n') == [def];
    }
  }

  lemma {:induction false} FirstCte(d: Dialect, ctes: seq<Cte>, n: nat)
    requires CalmCtes(ctes) && ctes != []
    ensures var sub := ctes[0].sub;
            var n', body := n + |Params(sub)|, MoveBy(d, QueryToks(d, sub), n);
            && PlainName(ctes[0].name) && PlainNames(ctes[0].columns) && CalmQuery(sub) && CalmCtes(ctes[1..])
            && CteListToks(d, ctes, n)
               == [Frag(CteHead(ctes[0]))] + body + [Frag(if |ctes| > 1 then "), " else ")")] + CteListToks(d, ctes[1..], n')
            && Defined(d, ctes, n) == [Definition(ctes[0].name, ctes[0].columns, body)] + Defined(d, ctes[1..], n')
            && (|ctes| == 1 ==> CteListToks(d, ctes[1..], n') == [] && Defined(d, ctes[1..], n') == [])
  {
    hide QueryToks, MoveBy, CteHead, Params, CalmQuery, PlainName, PlainNames;
  }

  lemma {:induction false} DefRead(open: string, name: string, columns: seq<string>, body: seq<Tok>, close: string, rest: seq<Tok>)
    requires ReadDefHead(open) == Some((name, columns)) && Closing(body + [Frag(close)] + rest, 1) == Some(|body|)
    requires close == ")" || close == "), "
    ensures var def := Definition(name, columns, body);
            ReadDefs([Frag(open)] + (body + [Frag(close)] + rest))
            == if close == ")" then Some(([def], rest))
               else if ReadDefs(rest).None? then None
               else Some(([def] + ReadDefs(rest).value.0, ReadDefs(rest).value.1))
  {
    hide ReadDefHead, Closing, Net;
    var after := body + [Frag(close)] + rest;
    assert ([Frag(open)] + after)[1..] == after;
    assert after[..|body|] == body && after[|body|] == Frag(close) && after[|body| + 1..] == rest;
    assert |")"| != |"), "|;
  }

  /** Some entry is marked as recursive. */
  predicate AnyRecursive(ctes: seq<Cte>) {
    exists i :: 0 <= i < |ctes| && ctes[i].recursive
  }

  lemma {:induction false} WithRead(d: Dialect, ctes: seq<Cte>, rest: seq<Tok>)
    requires CalmCtes(ctes) && rest != [] && rest[0].Frag? && rest[0].s != "WITH " && rest[0].s != "WITH RECURSIVE "
    ensures ReadWith(CtesToks(d, ctes) + rest) == Some(With(AnyRecursive(ctes), Defined(d, ctes, 0), rest))
  {
    hide ReadDefs, CteListToks, Defined, CalmCtes, WithWord, AnyRecursive;
    if ctes == [] {
      assert [] + rest == rest;
      NoDefs(d);
    } else {
      hide ReadWith;
      var list, after := CteListToks(d, ctes, 0), [Frag(" ")] + rest;
      DefsRead(d, ctes, 0, after);
      WordIs(ctes);
      WithOf(WithWord(ctes), list, Defined(d, ctes, 0), rest);
      assert CtesToks(d, ctes) + rest == [Frag(WithWord(ctes))] + (list + after);
    }
  }

  lemma {:induction false} WordIs(ctes: seq<Cte>)
    ensures WithWord(ctes) == "WITH " || WithWord(ctes) == "WITH RECURSIVE "
    ensures WithWord(ctes) == "WITH RECURSIVE " <==> AnyRecursive(ctes)
  {
    assert |"WITH "| != |"WITH RECURSIVE "|;
  }

  lemma {:induction false} WithOf(word: string, list: seq<Tok>, defs: seq<Definition>, rest: seq<Tok>)
    requires word == "WITH " || word == "WITH RECURSIVE "
    requires ReadDefs(list + ([Frag(" ")] + rest)) == Some((defs, [Frag(" ")] + rest))
    ensures ReadWith([Frag(word)] + (list + ([Frag(" ")] + rest))) == Some(With(word == "WITH RECURSIVE ", defs, rest))
  {
    hide ReadDefs;
    var ts := [Frag(word)] + (list + ([Frag(" ")] + rest));
    assert ts[1..] == list + ([Frag(" ")] + rest);
    assert ([Frag(" ")] + rest)[1..] == rest;
  }

  lemma {:induction false} NoDefs(d: Dialect)
    ensures Defined(d, [], 0) == [] && !AnyRecursive([])
  {
  }

  // ----- The parts after WITH are read -----

  lemma {:induction false} PartSkips(a: seq<Tok>, b: seq<Tok>, d: nat, starts: Tok -> bool)
    requires GoesOn(a, d) && Level(a, d) >= 0 && forall t :: starts(t) ==> Starts(t)
    ensures PartAt(a + b, d, starts) == |a| + PartAt(b, Level(a, d), starts)
  {
    hide Net, Starts;
    if a == [] {
      assert a + b == b;
    } else {
      assert (a + b)[1..] == a[1..] + b;
      PartSkips(a[1..], b, d + Net(a[0]), starts);
    }
  }

  lemma {:induction false} WordIsAt(s: string, word: string, rest: string)
    requires FirstAfter(s, word)
    ensures WordAt(s + word + rest, word) == |s|
  {
    var t := s + word + rest;
    if s == "" {
      assert t == word + rest;
      if t != "" {
        assert word <= t;
      }
    } else {
      assert t[1..] == s[1..] + word + rest;
      forall i | 0 <= i < |s[1..]|
        ensures !(word <= (s[1..] + word)[i..])
      {
        assert (s[1..] + word)[i..] == (s + word)[i + 1..];
      }
      WordIsAt(s[1..], word, rest);
      assert (s + word)[0..] == s + word;
      assert word <= t ==> word <= s + word;
    }
  }

  lemma {:induction false} HeadRead(q: Query)
    requires FirstAfter(q.cols, " FROM ")
    ensures ReadSelected(SelectHead(q)) == Some((q.cols, q.table + Spaces(q.joins)))
  {
    hide FirstAfter, WordAt;
    var source := q.table + Spaces(q.joins);
    var after := q.cols + " FROM " + source;
    assert SelectHead(q) == "SELECT " + after && SelectHead(q)[7..] == after;
    WordIsAt(q.cols, " FROM ", source);
    assert after[..|q.cols|] == q.cols && after[|q.cols| + 6..] == source;
  }

  lemma {:induction false} KindStarts(k: SetKind)
    ensures SetStart(" " + KindText(k) + " SELECT ")
  {
    var s := " " + KindText(k) + " SELECT ";
    match k
    case Union => assert s == " UNION " + "SELECT ";
    case Intersect => assert s == " INTERSECT " + "SELECT ";
    case Except => assert s == " EXCEPT " + "SELECT ";
    case _ => AllStarts(k);
  }

  lemma {:induction false} AllStarts(k: SetKind)
    requires k.UnionAll? || k.IntersectAll? || k.ExceptAll?
    ensures SetStart(" " + KindText(k) + " SELECT ")
  {
    var s := " " + KindText(k) + " SELECT ";
    match k
    case UnionAll => assert s == " UNION " + "ALL SELECT ";
    case IntersectAll => assert s == " INTERSECT " + "ALL SELECT ";
    case ExceptAll => assert s == " EXCEPT " + "ALL SELECT ";
  }

  lemma {:induction false} SetAt(d: Dialect, s: SetOp, n: nat)
    ensures PartAt(SetToks(d, s, n), 0, IsSet) == 0
  {
    hide SetStart, QueryToks;
    if s.SetWith? {
      KindStarts(s.kind);
    }
  }

  lemma {:induction false} ClausesAt(cs: seq<string>, more: seq<Tok>)
    requires CalmClauses(cs) && PartAt(more, 0, IsSet) == 0
    ensures PartAt(ClauseToks(cs) + more, 0, IsSet) == |ClauseToks(cs)|
    ensures PartAt(ClauseToks(cs), 0, IsClause) == 0
  {
    hide ClauseStart, SetStart, Opened, Spaces;
    assert [] + more == more;
    if cs != [] {
      assert (ClauseToks(cs) + more)[1..] == more;
    }
  }

  lemma {:induction false} PartsAt(tests: seq<Tok>, clauses: seq<Tok>, more: seq<Tok>)
    requires GoesOn(tests, 0) && Balanced(tests)
    requires PartAt(clauses + more, 0, IsSet) == |clauses| && PartAt(clauses, 0, IsClause) == 0
    ensures PartAt(tests + clauses + more, 0, IsSet) == |tests + clauses|
    ensures PartAt(tests + clauses, 0, IsClause) == |tests|
  {
    hide PartAt, GoesOn, Level, ClauseStart, SetStart;
    PartSkips(tests, clauses + more, 0, IsSet);
    PartSkips(tests, clauses, 0, IsClause);
    assert tests + clauses + more == tests + (clauses + more);
  }

  /** The right side of a set operation as it is written, `n` parameters having been bound before it. */
  function RightSide(d: Dialect, rhs: Query, n: nat): seq<Tok> {
    MoveBy(d, CutToks(QueryToks(d, rhs)), n)
  }

  /** What a statement was built to say. */
  function Meaning(d: Dialect, q: Query): Block {
    var n := |CteParams(q.ctes)|;
    Block(AnyRecursive(q.ctes), Defined(d, q.ctes, 0), q.cols, q.table + Spaces(q.joins),
          if q.conds == [] then None else Some(ItemsToks(d, q.conds, n + 1)), Spaces(q.clauses),
          if q.setOp.NoSet? then None
          else Some((Meant(q.setOp.kind), RightSide(d, q.setOp.rhs, n + |ItemsParams(q.conds)|))))
  }

  lemma {:induction false} MoreRead(d: Dialect, s: SetOp, n: nat)
    ensures ReadMore(SetToks(d, s, n)) == Some(if s.NoSet? then None else Some((Meant(s.kind), RightSide(d, s.rhs, n))))
  {
    hide QueryToks, ReadCombination, MoveBy, CutToks, KindText;
    if s.SetWith? {
      KindReads(s.kind);
      assert SetToks(d, s, n)[1..] == RightSide(d, s.rhs, n);
    }
  }

  lemma {:induction false} FilterRead(d: Dialect, conds: seq<Item>, off: nat)
    ensures ReadFilter(WhereToks(d, conds, off)) == Some(if conds == [] then None else Some(ItemsToks(d, conds, off)))
  {
    hide ItemsToks;
    if conds != [] {
      assert WhereToks(d, conds, off)[1..] == ItemsToks(d, conds, off);
    }
  }

  lemma {:induction false} ClausesRead(cs: seq<string>)
    ensures ReadClauses(ClauseToks(cs)) == Some(Spaces(cs))
  {
  }

  lemma {:induction false} PiecesAre(ctes: seq<Tok>, head: string, tests: seq<Tok>, cs: seq<string>, more: seq<Tok>)
    ensures Pieces(ctes, head, tests, cs, more) == ctes + ([Frag(head)] + (tests + ClauseToks(cs) + more))
  {
    hide ClauseToks;
  }

  lemma {:induction false} CalmQueryIs(q: Query)
    requires CalmQuery(q)
    ensures FirstAfter(q.cols, " FROM ") && CalmItems(q.conds) && CalmClauses(q.clauses) && CalmCtes(q.ctes)
  {
    hide FirstAfter, CalmItems, CalmClauses, CalmCtes, Opened;
  }

  lemma {:induction false} SelectIsNoWith(q: Query)
    ensures SelectHead(q) != "WITH " && SelectHead(q) != "WITH RECURSIVE "
  {
    assert SelectHead(q)[0] == 'S' && "WITH "[0] == 'W' && "WITH RECURSIVE "[0] == 'W';
  }

  lemma {:induction false} BlockOf(ts: seq<Tok>, with: With, head: string, tests: seq<Tok>, clauses: seq<Tok>, more: seq<Tok>)
    requires ReadWith(ts) == Some(with) && with.rest == [Frag(head)] + (tests + clauses + more)
    requires PartAt(tests + clauses + more, 0, IsSet) == |tests + clauses| && PartAt(tests + clauses, 0, IsClause) == |tests|
    requires ReadSelected(head).Some? && ReadFilter(tests).Some? && ReadClauses(clauses).Some? && ReadMore(more).Some?
    ensures ReadBlock(ts)
         == Some(Block(with.recursive, with.defs, ReadSelected(head).value.0, ReadSelected(head).value.1,
                       ReadFilter(tests).value, ReadClauses(clauses).value, ReadMore(more).value))
  {
    hide ReadWith, PartAt, ReadSelected, ReadFilter, ReadClauses, ReadMore;
    assert with.rest[1..] == tests + clauses + more;
    assert (tests + clauses + more)[..|tests + clauses|] == tests + clauses;
    assert (tests + clauses + more)[|tests + clauses|..] == more;
    assert (tests + clauses)[..|tests|] == tests && (tests + clauses)[|tests|..] == clauses;
  }

  /**
   * Every statement is read back as it was built: the WITH entries with their own statements, what is selected from
   * where, the conditions, the clauses after them, and the set operation that was asked for with its right side.
   */
  lemma {:induction false} QueryReads(d: Dialect, q: Query)
    requires CalmQuery(q)
    ensures ReadBlock(QueryToks(d, q)) == Some(Meaning(d, q))
  {
    hide ReadBlock, QueryToks, CtesToks, SetToks, WhereToks, ClauseToks, CteParams, ItemsParams, ReadSelected, ReadFilter;
    hide ReadClauses, ReadMore, ReadWith, PartAt, GoesOn, Balanced, SelectHead, RightSide, Defined, ItemsToks, Meant, Params;
    hide Pieces, CalmQuery, CalmCtes, CalmItems, CalmClauses, FirstAfter;
    var n := |CteParams(q.ctes)|;
    var n' := n + |ItemsParams(q.conds)|;
    var tests, clauses, more := WhereToks(d, q.conds, n + 1), ClauseToks(q.clauses), SetToks(d, q.setOp, n');
    var rest := [Frag(SelectHead(q))] + (tests + clauses + more);
    QueryIs(d, q);
    CalmQueryIs(q);
    PiecesAre(CtesToks(d, q.ctes), SelectHead(q), tests, q.clauses, more);
    SelectIsNoWith(q);
    WithRead(d, q.ctes, rest);
    WhereBalanced(d, q.conds, n + 1);
    SetAt(d, q.setOp, n');
    ClausesAt(q.clauses, more);
    PartsAt(tests, clauses, more);
    HeadRead(q);
    FilterRead(d, q.conds, n + 1);
    ClausesRead(q.clauses);
    MoreRead(d, q.setOp, n');
    BlockOf(QueryToks(d, q), With(AnyRecursive(q.ctes), Defined(d, q.ctes, 0), rest),
            SelectHead(q), tests, clauses, more);
  }
}
