/** A statement of the typed builder, read back clause by clause. */
module SelectReading {
  import opened Text
  import opened Values
  import opened Tokens
  import opened Exprs
  import opened Selects
  import opened TailReading
  import I = InsertReading

  // ----- Reading the clauses -----

  predicate StartsWithOne(s: string, words: seq<string>) {
    exists i :: 0 <= i < |words| && words[i] <= s
  }

  const CLAUSES: seq<string> := [" INNER JOIN ", " LEFT JOIN ", " RIGHT JOIN ", " CROSS JOIN ", " WHERE ", " GROUP BY ", " HAVING ",
                                 " ORDER BY ", " LIMIT ", " OFFSET ", " FOR ", " UNION ", " INTERSECT ", " EXCEPT "]

  /** A fragment that begins a clause; a clause that was not asked for is empty. */
  predicate Marks(t: Tok) {
    t.Frag? && (t.s == "" || StartsWithOne(t.s, CLAUSES))
  }

  /** Nothing in the tokens looks like the beginning of a clause. */
  predicate Unmarked(ts: seq<Tok>) {
    forall i :: 0 <= i < |ts| ==> !Marks(ts[i])
  }

  function BodyLength(ts: seq<Tok>): (n: nat)
    ensures n <= |ts|
  {
    if ts == [] || Marks(ts[0]) then 0 else 1 + BodyLength(ts[1..])
  }

  /** The text that begins a clause, and the tokens up to the next one. */
  datatype Section = Section(word: string, body: seq<Tok>)

  function Sections(ts: seq<Tok>): seq<Section>
    decreases |ts|
  {
    if ts == [] || !ts[0].Frag? then []
    else
      var n := BodyLength(ts[1..]);
      [Section(ts[0].s, ts[1..][..n])] + Sections(ts[1..][n..])
  }

  datatype Joined = Joined(kind: JoinKind, table: string, on: Option<seq<Tok>>)

  /** The clauses of a statement in their order. */
  datatype Clauses = Clauses(head: string, joins: seq<Joined>, filter: Option<seq<Tok>>, groups: seq<string>,
                             having: Option<seq<Tok>>, tail: Tail)

  function ReadJoinWords(s: string): Option<(JoinKind, string)> {
    if " INNER JOIN " <= s then Some((Inner, s[12..]))
    else if " LEFT JOIN " <= s then Some((Left, s[11..]))
    else if " RIGHT JOIN " <= s then Some((Right, s[12..]))
    else if " CROSS JOIN " <= s then Some((Cross, s[12..]))
    else None
  }

  function ReadJoin(sec: Section): Option<Joined> {
    match ReadJoinWords(sec.word)
    case None => None
    case Some(words) =>
      match I.ReadName(words.1)
      case None => None
      case Some(table) =>
        if table.1 == " ON " then Some(Joined(words.0, table.0, Some(sec.body)))
        else if table.1 == "" && sec.body == [] then Some(Joined(words.0, table.0, None))
        else None
  }

  function ReadJoins(secs: seq<Section>): (seq<Joined>, seq<Section>) {
    if secs == [] || ReadJoin(secs[0]).None? then ([], secs)
    else ([ReadJoin(secs[0]).value] + ReadJoins(secs[1..]).0, ReadJoins(secs[1..]).1)
  }

  /** A clause that may be missing. */
  function ReadPart(word: string, secs: seq<Section>): (Option<seq<Tok>>, seq<Section>) {
    if secs != [] && secs[0].word == word then (Some(secs[0].body), secs[1..]) else (None, secs)
  }

  function ReadGroups(s: string): Option<seq<string>> {
    if s == "" then Some([]) else if " GROUP BY " <= s then Some(SplitNames(s[10..])) else None
  }

  function ReadSelect(ts: seq<Tok>): Option<Clauses> {
    var secs := Sections(ts);
    if secs == [] then None
    else
      var joins := ReadJoins(secs[1..]);
      var filter := ReadPart(" WHERE ", joins.1);
      if filter.1 == [] || ReadGroups(filter.1[0].word).None? then None
      else
        var having := ReadPart(" HAVING ", filter.1[1..]);
        if having.1 == [] || ReadTail(having.1[0].word).None? then None
        else
          Some(Clauses(secs[0].word, joins.0, filter.0, ReadGroups(filter.1[0].word).value, having.0,
                       ReadTail(having.1[0].word).value))
  }

  // ----- The clauses that were written are read -----

  /** Rendered at whatever offset, no text of an expression looks like the beginning of a clause. */
  ghost predicate Quiet(d: Dialect, es: seq<Expr>) {
    forall i, off: nat :: 0 <= i < |es| ==> Unmarked(ExprToks(d, es[i], off))
  }

  ghost predicate QuietOn(d: Dialect, on: Option<Expr>) {
    on.Some? ==> Quiet(d, [on.value])
  }

  ghost predicate QuietJoins(d: Dialect, js: seq<JoinClause>) {
    forall i :: 0 <= i < |js| ==> I.NoQuote(js[i].table) && QuietOn(d, js[i].on)
  }

  /** What the caller's text must keep to. */
  ghost predicate QuietSelect(d: Dialect, s: Select) {
    && QuietJoins(d, s.joins) && Quiet(d, s.wheres) && Quiet(d, s.orWheres) && Quiet(d, s.havings)
    && (forall i :: 0 <= i < |s.groupBy| ==> ',' !in s.groupBy[i])
    && PlainColumns(s.orders) && Closed(s.setParts)
  }

  lemma {:induction false} BodyLengthOf(body: seq<Tok>, rest: seq<Tok>)
    requires Unmarked(body) && (rest == [] || Marks(rest[0]))
    ensures BodyLength(body + rest) == |body|
  {
    hide Marks;
    if body == [] {
      assert body + rest == rest;
    } else {
      assert (body + rest)[1..] == body[1..] + rest;
      BodyLengthOf(body[1..], rest);
    }
  }

  lemma {:induction false} NextSection(word: string, body: seq<Tok>, rest: seq<Tok>)
    requires Unmarked(body) && (rest == [] || Marks(rest[0]))
    ensures Sections([Frag(word)] + (body + rest)) == [Section(word, body)] + Sections(rest)
  {
    hide Marks, Unmarked;
    BodyLengthOf(body, rest);
    assert ([Frag(word)] + (body + rest))[1..] == body + rest;
    assert (body + rest)[..|body|] == body && (body + rest)[|body|..] == rest;
  }

  lemma {:induction false} Marked(s: string, i: nat)
    requires i < |CLAUSES| && CLAUSES[i] <= s
    ensures Marks(Frag(s))
  {
  }

  lemma {:induction false} UnmarkedCat(a: seq<Tok>, b: seq<Tok>)
    requires Unmarked(a) && Unmarked(b)
    ensures Unmarked(a + b)
  {
    hide Marks;
  }

  lemma {:induction false} UnmarkedOne(t: Tok)
    requires !t.Frag?
    ensures Unmarked([t])
  {
  }

  lemma {:induction false} ChainUnmarked(d: Dialect, es: seq<Expr>, sep: Tok, off: nat)
    requires Quiet(d, es) && !sep.Frag?
    ensures Unmarked(Chain(d, es, sep, off)) && Unmarked(ChainTail(d, es, sep, off))
  {
    hide Unmarked, ExprToks, ExprParams;
    NothingMarked();
    if es != [] {
      var first, off' := ExprToks(d, es[0], off), off + |ExprParams(es[0])|;
      assert Unmarked(first);
      ChainUnmarked(d, es[1..], sep, off');
      UnmarkedOne(sep);
      UnmarkedCat(first, ChainTail(d, es[1..], sep, off'));
      UnmarkedCat([sep], first);
      UnmarkedCat([sep] + first, ChainTail(d, es[1..], sep, off'));
    }
  }

  lemma {:induction false} NothingMarked()
    ensures Unmarked([])
  {
  }

  lemma {:induction false} PredicateUnmarked(a: seq<Tok>, o: seq<Tok>, anyOr: bool)
    requires Unmarked(a) && Unmarked(o)
    ensures Unmarked(Predicate(a, o, anyOr))
  {
    hide Unmarked, Flatten;
    UnmarkedOne(LP);
    UnmarkedOne(RP);
    UnmarkedOne(OR);
    UnmarkedCat([LP], a);
    UnmarkedCat([LP] + a, [RP]);
    UnmarkedCat([LP] + a + [RP], [OR]);
    UnmarkedCat([LP], o);
    UnmarkedCat([LP] + o, [RP]);
    UnmarkedCat([LP] + a + [RP] + [OR], [LP] + o + [RP]);
  }

  // ----- Joins -----

  lemma {:induction false} JoinWordsRead(k: JoinKind, after: string)
    ensures ReadJoinWords(" " + JoinWords(k) + " " + after) == Some((k, after))
    ensures StartsWithOne(" " + JoinWords(k) + " " + after, CLAUSES)
  {
    var s := " " + JoinWords(k) + " " + after;
    match k
    case Inner =>
      assert s == " INNER JOIN " + after && s[12..] == after;
      assert CLAUSES[0] <= s;
    case Left =>
      assert s == " LEFT JOIN " + after && s[11..] == after;
      assert CLAUSES[1] <= s;
      assert s[1] == 'L' && " INNER JOIN "[1] == 'I';
    case Right => RightRead(after);
    case Cross => CrossRead(after);
  }

  lemma {:induction false} RightRead(after: string)
    ensures ReadJoinWords(" " + JoinWords(Right) + " " + after) == Some((Right, after))
    ensures StartsWithOne(" " + JoinWords(Right) + " " + after, CLAUSES)
  {
    var s := " " + JoinWords(Right) + " " + after;
    assert s == " RIGHT JOIN " + after && s[12..] == after;
    assert CLAUSES[2] <= s;
    assert s[1] == 'R' && " INNER JOIN "[1] == 'I' && " LEFT JOIN "[1] == 'L';
  }

  lemma {:induction false} CrossRead(after: string)
    ensures ReadJoinWords(" " + JoinWords(Cross) + " " + after) == Some((Cross, after))
    ensures StartsWithOne(" " + JoinWords(Cross) + " " + after, CLAUSES)
  {
    var s := " " + JoinWords(Cross) + " " + after;
    assert s == " CROSS JOIN " + after && s[12..] == after;
    assert CLAUSES[3] <= s;
    assert s[1] == 'C' && " INNER JOIN "[1] == 'I' && " LEFT JOIN "[1] == 'L' && " RIGHT JOIN "[1] == 'R';
  }

  lemma {:induction false} JoinRead(j: JoinClause, on: seq<Tok>)
    requires I.NoQuote(j.table) && (j.on.None? ==> on == [])
    ensures ReadJoin(Section(JoinText(j), on)) == Some(Joined(j.kind, j.table, if j.on.Some? then Some(on) else None))
    ensures Marks(Frag(JoinText(j)))
  {
    hide ReadJoinWords, JoinWords, I.ReadName, I.NoQuote, StartsWithOne;
    var on' := if j.on.Some? then " ON " else "";
    var after := I.Inserts.Quote(j.table) + on';
    JoinWordsRead(j.kind, after);
    I.NameRead(j.table, on');
    assert JoinText(j) == " " + JoinWords(j.kind) + " " + after;
  }

  /** What the joins were built to be, with the tokens of their conditions. */
  function Joineds(d: Dialect, js: seq<JoinClause>, off: nat): seq<Joined> {
    if js == [] then []
    else
      [Joined(js[0].kind, js[0].table, if js[0].on.Some? then Some(ExprToks(d, js[0].on.value, off)) else None)]
      + Joineds(d, js[1..], off + |OnParams(js[0].on)|)
  }

  predicate StartsMarked(ts: seq<Tok>) {
    ts != [] && Marks(ts[0])
  }

  lemma {:induction false} JoinsRead(d: Dialect, js: seq<JoinClause>, off: nat, rest: seq<Tok>)
    requires QuietJoins(d, js)
    requires StartsMarked(rest) && ReadJoins(Sections(rest)) == ([], Sections(rest))
    ensures ReadJoins(Sections(JoinToks(d, js, off) + rest)) == (Joineds(d, js, off), Sections(rest))
    ensures StartsMarked(JoinToks(d, js, off) + rest)
  {
    hide Sections, Marks, Unmarked, ReadJoin, ReadJoins, JoinText, ExprToks, ExprParams, I.NoQuote, QuietOn, OnToks, OnParams;
    hide JoinToks, QuietJoins;
    NoJoins(d, off);
    if js == [] {
      assert [] + rest == rest;
    } else {
      FirstJoin(d, js, off);
      var on, off' := OnToks(d, js[0].on, off), off + |OnParams(js[0].on)|;
      var more := JoinToks(d, js[1..], off') + rest;
      JoinsRead(d, js[1..], off', rest);
      OnUnmarked(d, js[0].on, off);
      NextSection(JoinText(js[0]), on, more);
      JoinRead(js[0], on);
      assert JoinToks(d, js, off) + rest == [Frag(JoinText(js[0]))] + (on + more);
      NextJoin(Section(JoinText(js[0]), on), Sections(more));
    }
  }

  lemma {:induction false} NoJoins(d: Dialect, off: nat)
    ensures JoinToks(d, [], off) == []
  {
  }

  lemma {:induction false} FirstJoin(d: Dialect, js: seq<JoinClause>, off: nat)
    requires QuietJoins(d, js) && js != []
    ensures I.NoQuote(js[0].table) && QuietOn(d, js[0].on) && QuietJoins(d, js[1..])
    ensures JoinToks(d, js, off)
         == [Frag(JoinText(js[0]))] + OnToks(d, js[0].on, off) + JoinToks(d, js[1..], off + |OnParams(js[0].on)|)
  {
    hide I.NoQuote, QuietOn, JoinText, OnToks, OnParams;
  }

  lemma {:induction false} NextJoin(sec: Section, more: seq<Section>)
    requires ReadJoin(sec).Some?
    ensures ReadJoins([sec] + more) == ([ReadJoin(sec).value] + ReadJoins(more).0, ReadJoins(more).1)
  {
    hide ReadJoin;
    assert ([sec] + more)[1..] == more;
  }

  lemma {:induction false} OnUnmarked(d: Dialect, on: Option<Expr>, off: nat)
    requires QuietOn(d, on)
    ensures Unmarked(OnToks(d, on, off)) && (on.None? ==> OnToks(d, on, off) == [])
    ensures on.Some? ==> OnToks(d, on, off) == ExprToks(d, on.value, off)
  {
    hide Unmarked, ExprToks;
    NothingMarked();
    if on.Some? {
      assert [on.value][0] == on.value;
    }
  }

  // ----- The other clauses -----

  lemma {:induction false} GroupRead(cols: seq<string>)
    requires forall i :: 0 <= i < |cols| ==> ',' !in cols[i]
    ensures ReadGroups(GroupText(cols)) == Some(cols)
    ensures Marks(Frag(GroupText(cols)))
  {
    hide Join, SplitNames;
    if cols != [] {
      NamesSplit(cols);
      var s := " GROUP BY " + Join(cols, ", ");
      assert s[10..] == Join(cols, ", ");
      assert CLAUSES[5] <= s;
    }
  }

  lemma {:induction false} NoJoin(word: string, body: seq<Tok>, rest: seq<Section>)
    requires word == "" || (|word| > 2 && word[1] in "WGH")
    ensures ReadJoins([Section(word, body)] + rest) == ([], [Section(word, body)] + rest)
  {
    assert forall c :: c in "WGH" ==> c == 'W' || c == 'G' || c == 'H';
    assert " INNER JOIN "[1] == 'I' && " LEFT JOIN "[1] == 'L' && " RIGHT JOIN "[1] == 'R' && " CROSS JOIN "[1] == 'C';
  }

  lemma {:induction false} TailMarks(s: Select)
    ensures Marks(Frag(TailText(s)))
  {
    hide OrdersText, CountText, LockText, SetText, StartsWithOne;
    OrdersMark(s.orders);
    CountMarks(" LIMIT ", s.limit, 8);
    CountMarks(" OFFSET ", s.offset, 9);
    LockMarks(s.locking);
    SetMarks(s.setParts);
    var t := [OrdersText(s.orders), CountText(" LIMIT ", s.limit), CountText(" OFFSET ", s.offset), LockText(s.locking),
              SetText(s.setParts)];
    FirstMarks(t[0], t[1]);
    FirstMarks(t[0] + t[1], t[2]);
    FirstMarks(t[0] + t[1] + t[2], t[3]);
    FirstMarks(t[0] + t[1] + t[2] + t[3], t[4]);
  }

  lemma {:induction false} FirstMarks(a: string, b: string)
    requires Marks(Frag(a)) && Marks(Frag(b))
    ensures Marks(Frag(a + b))
  {
    if a == "" {
      assert a + b == b;
    } else {
      var i :| 0 <= i < |CLAUSES| && CLAUSES[i] <= a;
      assert CLAUSES[i] <= a + b;
    }
  }

  lemma {:induction false} OrdersMark(os: seq<Order>)
    ensures Marks(Frag(OrdersText(os)))
  {
    hide Join;
    if os != [] {
      Marked(OrdersText(os), 7);
    }
  }

  lemma {:induction false} CountMarks(word: string, n: Option<nat>, i: nat)
    requires i < |CLAUSES| && CLAUSES[i] == word
    ensures Marks(Frag(CountText(word, n)))
  {
    hide Decimal;
    if n.Some? {
      Marked(CountText(word, n), i);
    }
  }

  lemma {:induction false} LockMarks(l: Option<Locking>)
    ensures Marks(Frag(LockText(l)))
  {
    if l.Some? {
      ForFirst(l.value.lock);
      hide LockWords, ConflictText;
      assert LockText(l)[..5] == (" " + LockWords(l.value.lock))[..5];
      Marked(LockText(l), 10);
    }
  }

  lemma {:induction false} ForFirst(l: Lock)
    ensures " FOR " <= " " + LockWords(l)
  {
  }

  lemma {:induction false} SetMarks(parts: seq<SetPart>)
    ensures Marks(Frag(SetText(parts)))
  {
    hide SetText, JointWords, StartsWithOne;
    if parts == [] {
      NoSetText();
    } else {
      hide Marks;
      SetTextIs(parts);
      JointMarks(parts[0].joint, parts[0].sql + ")" + SetText(parts[1..]));
      Regroup(" (", parts[0].sql, ")", SetText(parts[1..]));
      Regroup("", parts[0].sql, ")", SetText(parts[1..]));
      assert parts[0].sql + (")" + SetText(parts[1..])) == parts[0].sql + ")" + SetText(parts[1..]);
    }
  }

  lemma {:induction false} JointMarks(j: Joint, more: string)
    ensures Marks(Frag(" " + JointWords(j) + (" (" + more)))
  {
    hide StartsWithOne;
    var s := " " + JointWords(j) + (" (" + more);
    match j
    case Union =>
      assert s == " UNION " + ("(" + more);
      Marked(s, 11);
    case Intersect =>
      assert s == " INTERSECT " + ("(" + more);
      Marked(s, 12);
    case Except =>
      assert s == " EXCEPT " + ("(" + more);
      Marked(s, 13);
    case UnionAll => AllMarks(more);
  }

  lemma {:induction false} AllMarks(more: string)
    ensures Marks(Frag(" " + JointWords(UnionAll) + (" (" + more)))
  {
    hide StartsWithOne;
    var s := " " + JointWords(UnionAll) + (" (" + more);
    assert s == " UNION " + ("ALL (" + more);
    Marked(s, 11);
  }

  // ----- The whole statement -----

  /** What the builder was told. */
  function Told(d: Dialect, s: Select): Clauses {
    var n := |JoinParams(s.joins)|;
    var n1 := n + |ChainParams(s.wheres)|;
    var n2 := n1 + |ChainParams(s.orWheres)|;
    Clauses(s.head, Joineds(d, s.joins, 1),
            if s.wheres == [] && s.orWheres == [] then None
            else Some(Predicate(Chain(d, s.wheres, AND, n + 1), Chain(d, s.orWheres, OR, n1 + 1), s.orWheres != [])),
            s.groupBy, if s.havings == [] then None else Some(Chain(d, s.havings, AND, n2 + 1)),
            Tail(s.orders, s.limit, s.offset, s.locking, s.setParts))
  }

  /** A clause that may be missing, as tokens. */
  function PartToks(word: string, body: Option<seq<Tok>>): seq<Tok> {
    if body.Some? then [Frag(word)] + body.value else []
  }

  lemma {:induction false} OptionalRead(word: string, body: Option<seq<Tok>>, next: string, rest: seq<Tok>, i: nat)
    requires i < |CLAUSES| && CLAUSES[i] == word && next != word
    requires (body.Some? ==> Unmarked(body.value)) && Marks(Frag(next)) && (rest == [] || Marks(rest[0]))
    ensures var ts := PartToks(word, body) + ([Frag(next)] + rest);
            && StartsMarked(ts)
            && Sections(ts) == (if body.Some? then [Section(word, body.value)] else []) + ([Section(next, [])] + Sections(rest))
            && ReadPart(word, Sections(ts)) == (body, [Section(next, [])] + Sections(rest))
  {
    hide Marks, Unmarked, Sections;
    NothingMarked();
    NextSection(next, [], rest);
    assert [] + rest == rest;
    var after := [Section(next, [])] + Sections(rest);
    if body.Some? {
      Marked(word, i);
      NextSection(word, body.value, [Frag(next)] + rest);
      assert PartToks(word, body) + ([Frag(next)] + rest) == [Frag(word)] + (body.value + ([Frag(next)] + rest));
      assert ([Section(word, body.value)] + after)[1..] == after;
    } else {
      assert [] + ([Frag(next)] + rest) == [Frag(next)] + rest;
      assert [] + after == after;
    }
  }

  lemma {:induction false} ReadSelectOf(ts: seq<Tok>, c: Clauses, tail: string, head: Section, rest: seq<Section>,
                                        rest1: seq<Section>, rest2: seq<Section>)
    requires Sections(ts) == [head] + rest && head.word == c.head
    requires ReadJoins(rest) == (c.joins, rest1)
    requires rest2 != [] && ReadPart(" WHERE ", rest1) == (c.filter, rest2) && ReadGroups(rest2[0].word) == Some(c.groups)
    requires ReadPart(" HAVING ", rest2[1..]) == (c.having, [Section(tail, [])]) && ReadTail(tail) == Some(c.tail)
    ensures ReadSelect(ts) == Some(c)
  {
    hide Sections, ReadJoins, ReadPart, ReadGroups, ReadTail;
    assert ([head] + rest)[1..] == rest;
  }

  lemma {:induction false} ToldIs(d: Dialect, s: Select)
    ensures var c := Told(d, s);
            SelectToks(d, s) == [Frag(s.head)] + (JoinToks(d, s.joins, 1)
              + (PartToks(" WHERE ", c.filter) + ([Frag(GroupText(s.groupBy))]
                 + (PartToks(" HAVING ", c.having) + ([Frag(TailText(s))] + [])))))
  {
    hide Chain, JoinToks, Joineds, JoinParams, ChainParams, Predicate, TailText, GroupText, ExprToks, ExprParams, Flatten;
    var c := Told(d, s);
    var n := |JoinParams(s.joins)|;
    var n2 := n + |ChainParams(s.wheres) + ChainParams(s.orWheres)|;
    assert WhereClause(d, s.wheres, s.orWheres, n + 1) == PartToks(" WHERE ", c.filter);
    assert HavingClause(d, s.havings, n2 + 1) == PartToks(" HAVING ", c.having);
    hide WhereClause, HavingClause, PartToks;
    assert [Frag(TailText(s))] + [] == [Frag(TailText(s))];
  }

  lemma {:induction false} ToldUnmarked(d: Dialect, s: Select)
    requires QuietSelect(d, s)
    ensures var c := Told(d, s);
            (c.filter.Some? ==> Unmarked(c.filter.value)) && (c.having.Some? ==> Unmarked(c.having.value))
  {
    hide Chain, Joineds, JoinParams, ChainParams, Predicate, Unmarked, Quiet, QuietJoins, PlainColumns, Closed;
    var n := |JoinParams(s.joins)|;
    var n1 := n + |ChainParams(s.wheres)|;
    var n2 := n1 + |ChainParams(s.orWheres)|;
    ChainUnmarked(d, s.wheres, AND, n + 1);
    ChainUnmarked(d, s.orWheres, OR, n1 + 1);
    ChainUnmarked(d, s.havings, AND, n2 + 1);
    PredicateUnmarked(Chain(d, s.wheres, AND, n + 1), Chain(d, s.orWheres, OR, n1 + 1), s.orWheres != []);
  }

  /** Every rendered statement is read back as the builder was told: each clause with its own text, values and counts. */
  lemma {:induction false} SelectReads(d: Dialect, s: Select)
    requires QuietSelect(d, s)
    ensures ReadSelect(SelectToks(d, s)) == Some(Told(d, s))
  {
    hide SelectToks, JoinToks, Told, Marks, Unmarked, Sections, ReadJoins, ReadPart, ReadGroups, ReadTail, ReadSelect;
    hide Quiet, QuietJoins, Closed, PlainColumns, GroupText, TailText, PartToks;
    var c := Told(d, s);
    var tail, group := TailText(s), GroupText(s.groupBy);
    var after2 := [Frag(tail)] + [];
    var after1 := PartToks(" HAVING ", c.having) + after2;
    var after0 := PartToks(" WHERE ", c.filter) + ([Frag(group)] + after1);
    ToldIs(d, s);
    ToldUnmarked(d, s);
    TailMarks(s);
    GroupRead(s.groupBy);
    TailReads(s);
    NextAre(s);
    OptionalRead(" HAVING ", c.having, tail, [], 6);
    OptionalRead(" WHERE ", c.filter, group, after1, 4);
    var secs0, secs1 := Sections(after0), Sections(after1);
    FirstIsNoJoin(c.filter, s.groupBy, secs1);
    JoinsRead(d, s.joins, 1, after0);
    var body := JoinToks(d, s.joins, 1) + after0;
    NothingMarked();
    NextSection(s.head, [], body);
    assert [] + body == body;
    var rest2 := [Section(group, [])] + secs1;
    assert rest2[1..] == secs1 && rest2[0] == Section(group, []);
    NothingLeft(tail);
    ToldParts(d, s);
    ReadSelectOf(SelectToks(d, s), c, tail, Section(s.head, []), Sections(body), secs0, rest2);
  }

  lemma {:induction false} NothingLeft(tail: string)
    ensures Sections([]) == [] && [Section(tail, [])] + [] == [Section(tail, [])]
  {
  }

  lemma {:induction false} ToldParts(d: Dialect, s: Select)
    ensures var c := Told(d, s);
            && c.head == s.head && c.joins == Joineds(d, s.joins, 1) && c.groups == s.groupBy
            && c.tail == Tail(s.orders, s.limit, s.offset, s.locking, s.setParts)
  {
    hide Joineds, Predicate, Chain, ChainParams, JoinParams;
  }

  lemma {:induction false} FirstIsNoJoin(filter: Option<seq<Tok>>, cols: seq<string>, rest: seq<Section>)
    ensures var secs := (if filter.Some? then [Section(" WHERE ", filter.value)] else []) + ([Section(GroupText(cols), [])] + rest);
            ReadJoins(secs) == ([], secs)
  {
    hide ReadJoins, GroupText;
    var after := [Section(GroupText(cols), [])] + rest;
    assert "WGH"[0] == 'W' && "WGH"[1] == 'G';
    if filter.Some? {
      NoJoin(" WHERE ", filter.value, after);
    } else {
      GroupStarts(cols);
      NoJoin(GroupText(cols), [], rest);
      assert [] + after == after;
    }
  }

  lemma {:induction false} GroupStarts(cols: seq<string>)
    ensures GroupText(cols) == "" || (|GroupText(cols)| > 2 && GroupText(cols)[1] == 'G')
  {
    hide Join;
  }

  lemma {:induction false} NextAre(s: Select)
    ensures TailText(s) != " HAVING " && GroupText(s.groupBy) != " WHERE "
  {
    hide TailText, GroupText;
    GroupStarts(s.groupBy);
    TailThird(s);
    assert " WHERE "[1] == 'W';
    NotThird(TailText(s), "RIFONX", " HAVING ");
  }

  lemma {:induction false} TailThird(s: Select)
    ensures Third(TailText(s), "RIFONX")
  {
    hide Third, OrdersText, CountText, LockText, SetText;
    var r4 := LockText(s.locking) + SetText(s.setParts);
    var r2 := CountText(" LIMIT ", s.limit) + (CountText(" OFFSET ", s.offset) + r4);
    TailThirds(s);
    OrdersThird(s.orders);
    ThirdCat(OrdersText(s.orders), r2, "R", "I" + ("F" + ("O" + "NX")));
    assert TailText(s) == OrdersText(s.orders) + r2;
    assert "R" + ("I" + ("F" + ("O" + "NX"))) == "RIFONX";
  }

  lemma {:induction false} OrdersThird(os: seq<Order>)
    ensures Third(OrdersText(os), "R")
  {
    hide Join;
    if os != [] {
      assert OrdersText(os)[2] == 'R' && "R"[0] == 'R';
    }
  }
}
