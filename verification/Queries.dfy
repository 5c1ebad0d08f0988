/** Whole statements of the Active Record query builder: CTEs, set operations and textual renumbering. */
module Queries {
  import opened Text
  import opened Values
  import opened Tokens
  import opened Leaves
  import opened Conditions

  datatype SetKind = Union | UnionAll | Intersect | IntersectAll | Except | ExceptAll

  /**
   * `cols` is the projection with its DISTINCT prefix. `joins` and `clauses` are the parameter-free pieces before
   * and after WHERE, each of which is written after a space.
   */
  datatype Query = Query(cols: string, table: string, joins: seq<string>, conds: seq<Item>, clauses: seq<string>,
                         ctes: seq<Cte>, setOp: SetOp)

  datatype Cte = Cte(name: string, columns: seq<string>, sub: Query, recursive: bool)

  datatype SetOp = NoSet | SetWith(kind: SetKind, rhs: Query)

  function KindText(k: SetKind): string {
    match k
    case Union => "UNION"
    case UnionAll => "UNION ALL"
    case Intersect => "INTERSECT"
    case IntersectAll => "INTERSECT ALL"
    case Except => "EXCEPT"
    case ExceptAll => "EXCEPT ALL"
  }

  function SelectHead(q: Query): string {
    "SELECT " + q.cols + " FROM " + q.table + Spaces(q.joins)
  }

  function CteHead(c: Cte): string {
    c.name + (if c.columns == [] then "" else " (" + Join(c.columns, ", ") + ")") + " AS ("
  }

  function WithWord(ctes: seq<Cte>): string {
    if exists i :: 0 <= i < |ctes| && ctes[i].recursive then "WITH RECURSIVE " else "WITH "
  }

  // ----- Parameters -----

  function Params(q: Query): seq<SqlValue>
    decreases q, 1
  {
    CteParams(q.ctes) + ItemsParams(q.conds) + SetParams(q.setOp)
  }

  function SetParams(s: SetOp): seq<SqlValue>
    decreases s, 2
  {
    if s.NoSet? then [] else Params(s.rhs)
  }

  function CteParams(ctes: seq<Cte>): seq<SqlValue>
    decreases ctes, 0
  {
    if ctes == [] then []
    else
      assert ctes[0].sub < ctes[0];
      Params(ctes[0].sub) + CteParams(ctes[1..])
  }

  // ----- The text that is written -----

  predicate IsSpace(c: char) {
    '\t' <= c <= '\r' || c == ' ' || c == '\U{0085}' || c == '\U{00A0}' || c == '\U{1680}'
    || '\U{2000}' <= c <= '\U{200A}' || c == '\U{2028}' || c == '\U{2029}' || c == '\U{202F}' || c == '\U{205F}'
    || c == '\U{3000}'
  }

  function TrimStart(s: string): string {
    if s != "" && IsSpace(s[0]) then TrimStart(s[1..]) else s
  }

  /** A leading SELECT keyword is cut off together with the space around it; any other text is left as it is. */
  function CutSelect(s: string): string {
    var t := TrimStart(s);
    if "SELECT" <= t then TrimStart(t[6..]) else s
  }

  function WhereText(d: Dialect, conds: seq<Item>, off: nat): string {
    if conds == [] then "" else " WHERE " + Flatten(ItemsToks(d, conds, off))
  }

  function PiecesText(ctes: string, head: string, conds: string, clauses: seq<string>, rest: string): string {
    ctes + head + conds + Spaces(clauses) + rest
  }

  function SqlText(d: Dialect, q: Query): string
    decreases q, 1
  {
    PiecesText(CtesText(d, q.ctes), SelectHead(q), WhereText(d, q.conds, |CteParams(q.ctes)| + 1), q.clauses,
               SetText(d, q.setOp, |CteParams(q.ctes)| + |ItemsParams(q.conds)|))
  }

  function SetText(d: Dialect, s: SetOp, n: nat): string
    decreases s, 2
  {
    if s.NoSet? then ""
    else
      " " + KindText(s.kind) + " SELECT "
      + CutSelect(if d.Postgres? then Renumbered(SqlText(d, s.rhs), n) else SqlText(d, s.rhs))
  }

  function CtesText(d: Dialect, ctes: seq<Cte>): string
    decreases ctes, 1
  {
    if ctes == [] then "" else WithWord(ctes) + CteList(d, ctes, 0) + " "
  }

  function CteText(head: string, body: string, another: bool, more: string): string {
    head + body + (if another then "), " else ")") + more
  }

  /** The definitions from some point on, `n` parameters having been bound before. */
  function CteList(d: Dialect, ctes: seq<Cte>, n: nat): string
    decreases ctes, 0
  {
    if ctes == [] then ""
    else
      assert ctes[0].sub < ctes[0];
      CteText(CteHead(ctes[0]), Renumbered(SqlText(d, ctes[0].sub), n), |ctes| > 1,
              CteList(d, ctes[1..], n + |Params(ctes[0].sub)|))
  }

  // ----- The tokens that are meant -----

  /** Offsets move the placeholders of the numbering dialect only. */
  function MoveBy(d: Dialect, ts: seq<Tok>, n: nat): seq<Tok> {
    if d.Postgres? then Shift(ts, n) else ts
  }

  function WhereToks(d: Dialect, conds: seq<Item>, off: nat): seq<Tok> {
    if conds == [] then [] else [Frag(" WHERE ")] + ItemsToks(d, conds, off)
  }

  function ClauseToks(cs: seq<string>): seq<Tok> {
    if cs == [] then [] else [Frag(Spaces(cs))]
  }

  function CutToks(ts: seq<Tok>): seq<Tok> {
    if ts != [] && ts[0].Frag? then [Frag(CutSelect(ts[0].s))] + ts[1..] else ts
  }

  function Pieces(ctes: seq<Tok>, head: string, conds: seq<Tok>, clauses: seq<string>, rest: seq<Tok>): seq<Tok> {
    ctes + [Frag(head)] + conds + ClauseToks(clauses) + rest
  }

  function QueryToks(d: Dialect, q: Query): seq<Tok>
    decreases q, 1
  {
    Pieces(CtesToks(d, q.ctes), SelectHead(q), WhereToks(d, q.conds, |CteParams(q.ctes)| + 1), q.clauses,
           SetToks(d, q.setOp, |CteParams(q.ctes)| + |ItemsParams(q.conds)|))
  }

  function SetToks(d: Dialect, s: SetOp, n: nat): seq<Tok>
    decreases s, 2
  {
    if s.NoSet? then []
    else [Frag(" " + KindText(s.kind) + " SELECT ")] + MoveBy(d, CutToks(QueryToks(d, s.rhs)), n)
  }

  function CtesToks(d: Dialect, ctes: seq<Cte>): seq<Tok>
    decreases ctes, 1
  {
    if ctes == [] then [] else [Frag(WithWord(ctes))] + CteListToks(d, ctes, 0) + [Frag(" ")]
  }

  function CteToks(head: string, body: seq<Tok>, another: bool, more: seq<Tok>): seq<Tok> {
    [Frag(head)] + body + [Frag(if another then "), " else ")")] + more
  }

  function CteListToks(d: Dialect, ctes: seq<Cte>, n: nat): seq<Tok>
    decreases ctes, 0
  {
    if ctes == [] then []
    else
      assert ctes[0].sub < ctes[0];
      CteToks(CteHead(ctes[0]), MoveBy(d, QueryToks(d, ctes[0].sub), n), |ctes| > 1,
              CteListToks(d, ctes[1..], n + |Params(ctes[0].sub)|))
  }

  // ----- Numbering -----

  lemma {:induction false} ShiftNumbered(d: Dialect, ps: seq<SqlValue>, n: nat)
    ensures MoveBy(d, Numbered(d, ps, 1), n) == Numbered(d, ps, n + 1)
  {
    var moved := MoveBy(d, Numbered(d, ps, 1), n);
    assert |moved| == |ps|;
    forall i | 0 <= i < |ps|
      ensures moved[i] == Ph(Number(d, n + 1 + i), ps[i])
    {
      assert Numbered(d, ps, 1)[i] == Ph(Number(d, 1 + i), ps[i]);
    }
  }

  lemma {:induction false} MoveSlots(d: Dialect, ts: seq<Tok>, n: nat)
    ensures Slots(MoveBy(d, ts, n)) == MoveBy(d, Slots(ts), n)
  {
    if d.Postgres? {
      SlotsShift(ts, n);
    }
  }

  lemma {:induction false} CutSlots(ts: seq<Tok>)
    ensures Slots(CutToks(ts)) == Slots(ts)
  {
    if ts != [] && ts[0].Frag? {
      assert CutToks(ts)[1..] == ts[1..];
    }
  }

  lemma {:induction false} WhereSlots(d: Dialect, conds: seq<Item>, off: nat)
    ensures Slots(WhereToks(d, conds, off)) == Numbered(d, ItemsParams(conds), off)
  {
    if conds != [] {
      ItemsNumbering(d, conds, off);
      SlotsCat([Frag(" WHERE ")], ItemsToks(d, conds, off));
    }
  }

  lemma {:induction false} CtesSlots(d: Dialect, ctes: seq<Cte>)
    ensures Slots(CtesToks(d, ctes)) == Numbered(d, CteParams(ctes), 1)
    decreases ctes, 1
  {
    if ctes != [] {
      CteListSlots(d, ctes, 0);
      SlotsWrap([Frag(WithWord(ctes))], CteListToks(d, ctes, 0), [Frag(" ")]);
    }
  }

  lemma {:induction false} CteListSlots(d: Dialect, ctes: seq<Cte>, n: nat)
    ensures Slots(CteListToks(d, ctes, n)) == Numbered(d, CteParams(ctes), n + 1)
    decreases ctes, 0
  {
    hide Slots, Numbered, MoveBy, CteHead, QueryToks, Params;
    NothingNumbered(d, n + 1);
    if ctes != [] {
      assert ctes[0].sub < ctes[0];
      var sub, ps := ctes[0].sub, Params(ctes[0].sub);
      SlotsNone([Frag(CteHead(ctes[0]))]);
      SlotsNone([Frag(if |ctes| > 1 then "), " else ")")]);
      QueryNumbering(d, sub);
      MovedSlots(d, QueryToks(d, sub), ps, n);
      CteListSlots(d, ctes[1..], n + |ps|);
      var close := [Frag(if |ctes| > 1 then "), " else ")")];
      SlotsWrap([Frag(CteHead(ctes[0]))], MoveBy(d, QueryToks(d, sub), n), close);
      SlotsCat([Frag(CteHead(ctes[0]))] + MoveBy(d, QueryToks(d, sub), n) + close, CteListToks(d, ctes[1..], n + |ps|));
      NumberedCat(d, ps, CteParams(ctes[1..]), n + 1);
    }
  }

  lemma {:induction false} MovedSlots(d: Dialect, ts: seq<Tok>, ps: seq<SqlValue>, n: nat)
    requires Slots(ts) == Numbered(d, ps, 1)
    ensures Slots(MoveBy(d, ts, n)) == Numbered(d, ps, n + 1)
  {
    MoveSlots(d, ts, n);
    ShiftNumbered(d, ps, n);
  }

  lemma {:induction false} SetSlots(d: Dialect, s: SetOp, n: nat)
    ensures Slots(SetToks(d, s, n)) == Numbered(d, SetParams(s), n + 1)
    decreases s, 2
  {
    if s.SetWith? {
      QueryNumbering(d, s.rhs);
      CutSlots(QueryToks(d, s.rhs));
      MovedSlots(d, CutToks(QueryToks(d, s.rhs)), Params(s.rhs), n);
      SlotsCat([Frag(" " + KindText(s.kind) + " SELECT ")], MoveBy(d, CutToks(QueryToks(d, s.rhs)), n));
    }
  }

  lemma {:induction false} PiecesSlots(d: Dialect, all: seq<Tok>, ps: seq<SqlValue>, a: seq<Tok>, ap: seq<SqlValue>, head: string,
                                       b: seq<Tok>, bp: seq<SqlValue>, cs: seq<string>, c: seq<Tok>, cp: seq<SqlValue>)
    requires Slots(a) == Numbered(d, ap, 1)
    requires Slots(b) == Numbered(d, bp, |ap| + 1)
    requires Slots(c) == Numbered(d, cp, |ap| + |bp| + 1)
    requires all == Pieces(a, head, b, cs, c) && ps == ap + bp + cp
    ensures Slots(all) == Numbered(d, ps, 1)
  {
    SlotsCat(a, [Frag(head)]);
    SlotsCat(a + [Frag(head)], b);
    SlotsCat(a + [Frag(head)] + b, ClauseToks(cs));
    SlotsCat(a + [Frag(head)] + b + ClauseToks(cs), c);
    NumberedCat(d, ap, bp, 1);
    NumberedCat(d, ap + bp, cp, 1);
  }

  lemma {:induction false} QueryIs(d: Dialect, q: Query)
    ensures Params(q) == CteParams(q.ctes) + ItemsParams(q.conds) + SetParams(q.setOp)
    ensures var n := |CteParams(q.ctes)|;
            QueryToks(d, q) == Pieces(CtesToks(d, q.ctes), SelectHead(q), WhereToks(d, q.conds, n + 1), q.clauses,
                                      SetToks(d, q.setOp, n + |ItemsParams(q.conds)|))
  {
    hide ItemsToks, CtesToks, SetToks, ItemsParams, CteParams, SetParams, WhereToks, Pieces;
  }

  /** Through CTEs inside CTEs and set operations, the placeholders number all bound values consecutively from 1. */
  lemma {:induction false} QueryNumbering(d: Dialect, q: Query)
    ensures Slots(QueryToks(d, q)) == Numbered(d, Params(q), 1)
    decreases q, 1
  {
    var n := |CteParams(q.ctes)|;
    var n' := n + |ItemsParams(q.conds)|;
    hide *;
    CtesSlots(d, q.ctes);
    WhereSlots(d, q.conds, n + 1);
    SetSlots(d, q.setOp, n');
    QueryIs(d, q);
    PiecesSlots(d, QueryToks(d, q), Params(q), CtesToks(d, q.ctes), CteParams(q.ctes), SelectHead(q),
                WhereToks(d, q.conds, n + 1), ItemsParams(q.conds), q.clauses, SetToks(d, q.setOp, n'), SetParams(q.setOp));
  }

  // ----- The text spells the tokens -----

  /** No text that the caller supplies contains a `$` followed by a digit. */
  ghost predicate QuietQuery(q: Query)
    decreases q, 1
  {
    && Quiet(SelectHead(q)) && QuietItems(q.conds) && Quiet(Spaces(q.clauses)) && QuietCtes(q.ctes)
    && (q.setOp.SetWith? ==> QuietQuery(q.setOp.rhs))
  }

  ghost predicate QuietCtes(ctes: seq<Cte>)
    decreases ctes, 0
  {
    ctes != [] ==>
      assert ctes[0].sub < ctes[0];
      Quiet(CteHead(ctes[0])) && QuietQuery(ctes[0].sub) && QuietCtes(ctes[1..])
  }

  lemma {:induction false} MoveClean(d: Dialect, ts: seq<Tok>, n: nat)
    requires Clean(ts)
    ensures Clean(MoveBy(d, ts, n))
  {
  }

  lemma {:induction false} TrimIsSuffix(s: string) returns (n: nat)
    ensures n <= |s| && TrimStart(s) == s[n..]
  {
    if s != "" && IsSpace(s[0]) {
      var k := TrimIsSuffix(s[1..]);
      n := k + 1;
    } else {
      n := 0;
    }
  }

  lemma {:induction false} CutIsSuffix(s: string) returns (n: nat)
    ensures n <= |s| && CutSelect(s) == s[n..]
  {
    var k := TrimIsSuffix(s);
    var t := TrimStart(s);
    if "SELECT" <= t {
      var m := TrimIsSuffix(t[6..]);
      n := k + 6 + m;
    } else {
      n := 0;
    }
  }

  lemma {:induction false} CutClean(ts: seq<Tok>)
    requires Clean(ts)
    ensures Clean(CutToks(ts))
  {
    hide CutSelect, Quiet, EndsWithDollar;
    if ts != [] && ts[0].Frag? {
      var n := CutIsSuffix(ts[0].s);
      SuffixQuiet(ts[0].s, n);
      HeadClean(Frag(CutSelect(ts[0].s)), ts);
    }
  }

  lemma {:induction false} SuffixQuiet(s: string, n: nat)
    requires Quiet(s) && n <= |s|
    ensures Quiet(s[n..]) && (EndsWithDollar(s[n..]) ==> EndsWithDollar(s))
  {
  }

  lemma {:induction false} HeadClean(t: Tok, ts: seq<Tok>)
    requires Clean(ts) && ts != [] && t.Frag? && Quiet(t.s) && (Opens(t) ==> Opens(ts[0]))
    ensures Clean([t] + ts[1..])
  {
    hide Quiet, Opens, SafeStart;
    var us := [t] + ts[1..];
    forall i, j | 0 <= i < j < |us| && j == i + 1 && Opens(us[i])
      ensures SafeStart(us[j])
    {
      assert us[j] == ts[j] && (i > 0 ==> us[i] == ts[i]);
    }
    assert forall i :: 0 < i < |us| ==> us[i] == ts[i];
  }

  lemma {:induction false} TrimCat(s: string, t: string)
    requires exists i :: 0 <= i < |s| && !IsSpace(s[i])
    ensures TrimStart(s + t) == TrimStart(s) + t
  {
    if IsSpace(s[0]) {
      TrimCat(s[1..], t);
      assert (s + t)[1..] == s[1..] + t;
    }
  }

  /** Text on which cutting the keyword is decided, whatever follows it. */
  ghost predicate Decided(h: string) {
    && h != "" && !IsSpace(h[0])
    && if "SELECT" <= h then exists i :: 0 <= i < |h[6..]| && !IsSpace(h[6..][i]) else h[0] != 'S'
  }

  lemma {:induction false} CutCat(h: string, t: string)
    requires Decided(h)
    ensures CutSelect(h + t) == CutSelect(h) + t
  {
    if "SELECT" <= h {
      assert "SELECT" <= h + t && (h + t)[6..] == h[6..] + t;
      TrimCat(h[6..], t);
    }
  }

  lemma {:induction false} CutFlatten(ts: seq<Tok>)
    requires ts != [] && ts[0].Frag? && Decided(ts[0].s)
    ensures CutSelect(Flatten(ts)) == Flatten(CutToks(ts))
  {
    CutCat(ts[0].s, Flatten(ts[1..]));
    assert CutToks(ts)[1..] == ts[1..];
  }

  lemma {:induction false} CutMove(d: Dialect, ts: seq<Tok>, n: nat)
    ensures CutToks(MoveBy(d, ts, n)) == MoveBy(d, CutToks(ts), n)
  {
  }

  lemma {:induction false} SelectDecided(q: Query)
    ensures Decided(SelectHead(q))
  {
    var h := SelectHead(q);
    var i := |" " + q.cols + " "|;
    assert h[6..][i] == 'F';
  }

  lemma {:induction false} QueryStarts(d: Dialect, q: Query)
    ensures var ts := QueryToks(d, q); ts != [] && ts[0].Frag? && Decided(ts[0].s)
  {
    if q.ctes == [] {
      SelectDecided(q);
    }
  }

  lemma {:induction false} Bounded(d: Dialect, ts: seq<Tok>, ps: seq<SqlValue>)
    requires Slots(ts) == Numbered(d, ps, 1)
    ensures forall t :: t in ts && t.Ph? ==> t.n <= |ps| && (d.Qmark? <==> t.n == 0)
  {
    forall t | t in ts && t.Ph?
      ensures t.n <= |ps| && (d.Qmark? <==> t.n == 0)
    {
      PlaceholdersAreSlots(ts, t);
      var i :| 0 <= i < |ps| && Numbered(d, ps, 1)[i] == t;
      assert t == Ph(Number(d, 1 + i), ps[i]);
    }
  }

  /** Renumbering the text of a numbered statement moves its placeholders. */
  lemma {:induction false} RenumberMoves(d: Dialect, ts: seq<Tok>, ps: seq<SqlValue>, n: nat)
    requires Clean(ts) && Slots(ts) == Numbered(d, ps, 1) && n + |ps| < USIZE_LIMIT
    ensures Renumbered(Flatten(ts), n) == Flatten(MoveBy(d, ts, n))
  {
    Bounded(d, ts, ps);
    RenumberFlatten(ts, n);
    if d.Qmark? {
      assert Shift(ts, n) == ts;
    }
  }

  // ----- Cleanliness -----

  lemma {:induction false} WhereClean(d: Dialect, conds: seq<Item>, off: nat)
    requires QuietItems(conds)
    ensures Clean(WhereToks(d, conds, off))
    ensures WhereToks(d, conds, off) != [] ==> SafeStart(WhereToks(d, conds, off)[0])
  {
    hide Clean, ItemsToks, QuietItems;
    WhereWordClean();
    if conds != [] {
      ItemsClean(d, conds, off);
      CleanCat([Frag(" WHERE ")], ItemsToks(d, conds, off));
    }
  }

  lemma {:induction false} WhereWordClean()
    ensures Clean([Frag(" WHERE ")]) && !EndsWithDollar(" WHERE ") && Clean([])
  {
  }

  lemma {:induction false} PiecesClean(all: seq<Tok>, a: seq<Tok>, head: string, b: seq<Tok>, cs: seq<string>, c: seq<Tok>)
    requires Clean(a) && Quiet(head) && Clean(b) && Quiet(Spaces(cs)) && Clean(c)
    requires (a != [] ==> !Opens(a[|a| - 1])) && (b != [] ==> SafeStart(b[0])) && (c != [] ==> SafeStart(c[0]))
    requires all == Pieces(a, head, b, cs, c)
    ensures Clean(all)
  {
    CleanCat(a, [Frag(head)]);
    CleanCat(a + [Frag(head)], b);
    CleanCat(a + [Frag(head)] + b, ClauseToks(cs));
    CleanCat(a + [Frag(head)] + b + ClauseToks(cs), c);
  }

  lemma {:induction false} QueryClean(d: Dialect, q: Query)
    requires QuietQuery(q)
    ensures Clean(QueryToks(d, q))
    decreases q, 1
  {
    var n := |CteParams(q.ctes)|;
    var n' := n + |ItemsParams(q.conds)|;
    CtesClean(d, q.ctes);
    WhereClean(d, q.conds, n + 1);
    SetClean(d, q.setOp, n');
    PiecesClean(QueryToks(d, q), CtesToks(d, q.ctes), SelectHead(q), WhereToks(d, q.conds, n + 1), q.clauses,
                SetToks(d, q.setOp, n'));
  }

  lemma {:induction false} KindQuiet(kind: SetKind)
    ensures var word := " " + KindText(kind) + " SELECT "; Quiet(word) && !EndsWithDollar(word)
  {
    assert '$' !in KindText(kind);
  }

  lemma {:induction false} SetClean(d: Dialect, s: SetOp, n: nat)
    requires s.SetWith? ==> QuietQuery(s.rhs)
    ensures Clean(SetToks(d, s, n))
    ensures SetToks(d, s, n) != [] ==> SafeStart(SetToks(d, s, n)[0])
    decreases s, 2
  {
    if s.SetWith? {
      QueryClean(d, s.rhs);
      CutClean(QueryToks(d, s.rhs));
      MoveClean(d, CutToks(QueryToks(d, s.rhs)), n);
      KindQuiet(s.kind);
      CleanCat([Frag(" " + KindText(s.kind) + " SELECT ")], MoveBy(d, CutToks(QueryToks(d, s.rhs)), n));
    }
  }

  lemma {:induction false} CtesClean(d: Dialect, ctes: seq<Cte>)
    requires QuietCtes(ctes)
    ensures Clean(CtesToks(d, ctes))
    ensures CtesToks(d, ctes) != [] ==> !Opens(CtesToks(d, ctes)[|CtesToks(d, ctes)| - 1])
    decreases ctes, 1
  {
    hide Clean, CteListToks, WithWord, QuietCtes;
    WordClean(ctes);
    if ctes != [] {
      var word, list := WithWord(ctes), CteListToks(d, ctes, 0);
      CteListClean(d, ctes, 0);
      CleanCat([Frag(word)], list);
      CleanCat([Frag(word)] + list, [Frag(" ")]);
    }
  }

  lemma {:induction false} WordClean(ctes: seq<Cte>)
    ensures Clean([Frag(WithWord(ctes))]) && !EndsWithDollar(WithWord(ctes)) && Clean([Frag(" ")]) && Clean([])
  {
  }

  lemma {:induction false} CteListIs(d: Dialect, ctes: seq<Cte>, n: nat)
    requires ctes != []
    ensures var sub := ctes[0].sub;
            var n' := n + |Params(sub)|;
            && CteListToks(d, ctes, n)
               == CteToks(CteHead(ctes[0]), MoveBy(d, QueryToks(d, sub), n), |ctes| > 1, CteListToks(d, ctes[1..], n'))
            && CteList(d, ctes, n)
               == CteText(CteHead(ctes[0]), Renumbered(SqlText(d, sub), n), |ctes| > 1, CteList(d, ctes[1..], n'))
  {
    hide QueryToks, SqlText, CteToks, CteText, MoveBy, Renumbered, CteHead, Params;
  }

  lemma {:induction false} CteHeadEnds(c: Cte)
    ensures !EndsWithDollar(CteHead(c))
  {
  }

  lemma {:induction false} QuietCtesIs(ctes: seq<Cte>)
    requires QuietCtes(ctes) && ctes != []
    ensures Quiet(CteHead(ctes[0])) && QuietQuery(ctes[0].sub) && QuietCtes(ctes[1..])
  {
    hide Quiet, CteHead;
  }

  lemma {:induction false} NoCtes(d: Dialect, n: nat)
    ensures CteListToks(d, [], n) == [] && Clean([])
  {
  }

  lemma {:induction false} CteListClean(d: Dialect, ctes: seq<Cte>, n: nat)
    requires QuietCtes(ctes)
    ensures var ts := CteListToks(d, ctes, n);
            Clean(ts) && (ctes != [] ==> ts != []) && (ts != [] ==> !Opens(ts[|ts| - 1]))
    decreases ctes, 0
  {
    hide *;
    if ctes == [] {
      NoCtes(d, n);
    } else {
      assert ctes[0].sub < ctes[0];
      var n' := n + |Params(ctes[0].sub)|;
      QuietCtesIs(ctes);
      QueryClean(d, ctes[0].sub);
      MoveClean(d, QueryToks(d, ctes[0].sub), n);
      CteListClean(d, ctes[1..], n');
      CteListIs(d, ctes, n);
      CteHeadEnds(ctes[0]);
      CteClean(CteListToks(d, ctes, n), CteHead(ctes[0]), MoveBy(d, QueryToks(d, ctes[0].sub), n), |ctes| > 1,
               CteListToks(d, ctes[1..], n'));
    }
  }

  lemma {:induction false} CteClean(ts: seq<Tok>, head: string, body: seq<Tok>, another: bool, more: seq<Tok>)
    requires Quiet(head) && !EndsWithDollar(head) && Clean(body) && Clean(more)
    requires more != [] ==> !Opens(more[|more| - 1])
    requires ts == CteToks(head, body, another, more)
    ensures Clean(ts) && ts != [] && !Opens(ts[|ts| - 1])
  {
    var close := if another then "), " else ")";
    CleanCat([Frag(head)], body);
    CleanCat([Frag(head)] + body, [Frag(close)]);
    CleanCat([Frag(head)] + body + [Frag(close)], more);
  }

  // ----- Spelling -----

  lemma {:induction false} WhereSpelled(d: Dialect, conds: seq<Item>, off: nat)
    ensures WhereText(d, conds, off) == Flatten(WhereToks(d, conds, off))
  {
    if conds != [] {
      FlattenCat([Frag(" WHERE ")], ItemsToks(d, conds, off));
    }
  }

  lemma {:induction false} PiecesSpelled(text: string, all: seq<Tok>, a: seq<Tok>, head: string, b: seq<Tok>,
                                         cs: seq<string>, c: seq<Tok>)
    requires all == Pieces(a, head, b, cs, c)
    requires text == PiecesText(Flatten(a), head, Flatten(b), cs, Flatten(c))
    ensures text == Flatten(all)
  {
    FlattenCat(a, [Frag(head)]);
    FlattenCat(a + [Frag(head)], b);
    FlattenCat(a + [Frag(head)] + b, ClauseToks(cs));
    FlattenCat(a + [Frag(head)] + b + ClauseToks(cs), c);
    assert Flatten([Frag(head)]) == head && Flatten(ClauseToks(cs)) == Spaces(cs);
  }

  lemma {:induction false} SqlPieces(d: Dialect, q: Query)
    ensures var n := |CteParams(q.ctes)|;
            SqlText(d, q) == PiecesText(CtesText(d, q.ctes), SelectHead(q), WhereText(d, q.conds, n + 1), q.clauses,
                                        SetText(d, q.setOp, n + |ItemsParams(q.conds)|))
  {
    hide ItemsParams, CtesText, SelectHead, WhereText, SetText, PiecesText;
  }

  lemma {:induction false} QuietQueryIs(q: Query)
    requires QuietQuery(q)
    ensures Quiet(SelectHead(q)) && QuietItems(q.conds) && Quiet(Spaces(q.clauses)) && QuietCtes(q.ctes)
    ensures q.setOp.SetWith? ==> QuietQuery(q.setOp.rhs)
  {
    hide Quiet, SelectHead, QuietItems, Spaces;
  }

  /** The text that nests, renumbers and cuts its parts spells the tokens that are meant. */
  lemma {:induction false} QuerySpelled(d: Dialect, q: Query)
    requires QuietQuery(q) && |Params(q)| < USIZE_LIMIT
    ensures SqlText(d, q) == Flatten(QueryToks(d, q))
    decreases q, 1
  {
    hide *;
    var n := |CteParams(q.ctes)|;
    var n' := n + |ItemsParams(q.conds)|;
    QuietQueryIs(q);
    QueryIs(d, q);
    SqlPieces(d, q);
    CtesSpelled(d, q.ctes);
    WhereSpelled(d, q.conds, n + 1);
    SetSpelled(d, q.setOp, n');
    PiecesSpelled(SqlText(d, q), QueryToks(d, q), CtesToks(d, q.ctes), SelectHead(q), WhereToks(d, q.conds, n + 1),
                  q.clauses, SetToks(d, q.setOp, n'));
  }

  lemma {:induction false} SetSpelled(d: Dialect, s: SetOp, n: nat)
    requires s.SetWith? ==> QuietQuery(s.rhs)
    requires n + |SetParams(s)| < USIZE_LIMIT
    ensures SetText(d, s, n) == Flatten(SetToks(d, s, n))
    decreases s, 2
  {
    if s.SetWith? {
      QuerySpelled(d, s.rhs);
      QueryClean(d, s.rhs);
      QueryNumbering(d, s.rhs);
      QueryStarts(d, s.rhs);
      CutSpelled(d, s.kind, QueryToks(d, s.rhs), Params(s.rhs), n);
    }
  }

  lemma {:induction false} CutSpelled(d: Dialect, kind: SetKind, ts: seq<Tok>, ps: seq<SqlValue>, n: nat)
    requires Clean(ts) && ts != [] && ts[0].Frag? && Decided(ts[0].s)
    requires Slots(ts) == Numbered(d, ps, 1) && n + |ps| < USIZE_LIMIT
    ensures var word := " " + KindText(kind) + " SELECT ";
            Flatten([Frag(word)] + MoveBy(d, CutToks(ts), n))
            == word + CutSelect(if d.Postgres? then Renumbered(Flatten(ts), n) else Flatten(ts))
  {
    var word := " " + KindText(kind) + " SELECT ";
    RenumberMoves(d, ts, ps, n);
    CutFlatten(MoveBy(d, ts, n));
    CutMove(d, ts, n);
    FlattenCat([Frag(word)], MoveBy(d, CutToks(ts), n));
  }

  lemma {:induction false} CtesSpelled(d: Dialect, ctes: seq<Cte>)
    requires QuietCtes(ctes) && |CteParams(ctes)| < USIZE_LIMIT
    ensures CtesText(d, ctes) == Flatten(CtesToks(d, ctes))
    decreases ctes, 1
  {
    if ctes != [] {
      CteListSpelled(d, ctes, 0);
      FlattenCat([Frag(WithWord(ctes))], CteListToks(d, ctes, 0));
      FlattenCat([Frag(WithWord(ctes))] + CteListToks(d, ctes, 0), [Frag(" ")]);
    }
  }

  lemma {:induction false} CteListSpelled(d: Dialect, ctes: seq<Cte>, n: nat)
    requires QuietCtes(ctes) && n + |CteParams(ctes)| < USIZE_LIMIT
    ensures CteList(d, ctes, n) == Flatten(CteListToks(d, ctes, n))
    decreases ctes, 0
  {
    if ctes != [] {
      assert ctes[0].sub < ctes[0];
      var sub, n' := ctes[0].sub, n + |Params(ctes[0].sub)|;
      assert |CteParams(ctes)| == |Params(sub)| + |CteParams(ctes[1..])|;
      hide QueryToks, CteListToks, CteList, SqlText, Params, CteParams;
      QuerySpelled(d, sub);
      QueryClean(d, sub);
      QueryNumbering(d, sub);
      RenumberMoves(d, QueryToks(d, sub), Params(sub), n);
      CteListSpelled(d, ctes[1..], n');
      NextCteSpelled(d, ctes, n);
    }
  }

  lemma {:induction false} NextCteSpelled(d: Dialect, ctes: seq<Cte>, n: nat)
    requires ctes != []
    requires Renumbered(SqlText(d, ctes[0].sub), n) == Flatten(MoveBy(d, QueryToks(d, ctes[0].sub), n))
    requires var n' := n + |Params(ctes[0].sub)|; CteList(d, ctes[1..], n') == Flatten(CteListToks(d, ctes[1..], n'))
    ensures CteList(d, ctes, n) == Flatten(CteListToks(d, ctes, n))
  {
    hide *;
    CteListIs(d, ctes, n);
    CteSpelled(CteList(d, ctes, n), CteListToks(d, ctes, n), CteHead(ctes[0]), MoveBy(d, QueryToks(d, ctes[0].sub), n),
               |ctes| > 1, CteListToks(d, ctes[1..], n + |Params(ctes[0].sub)|));
  }

  lemma {:induction false} CteSpelled(text: string, ts: seq<Tok>, head: string, body: seq<Tok>, another: bool,
                                      more: seq<Tok>)
    requires ts == CteToks(head, body, another, more)
    requires text == CteText(head, Flatten(body), another, Flatten(more))
    ensures text == Flatten(ts)
  {
    var close := if another then "), " else ")";
    FlattenCat([Frag(head)], body);
    FlattenCat([Frag(head)] + body, [Frag(close)]);
    FlattenCat([Frag(head)] + body + [Frag(close)], more);
  }

  // ----- What the statement contains -----

  lemma {:induction false} NumbersUp(ps: seq<SqlValue>, off: nat)
    ensures Numbers(Numbered(Postgres, ps, off)) == seq(|ps|, i => off + i)
  {
    if ps != [] {
      var ts := Numbered(Postgres, ps, off);
      NumbersUp(ps[1..], off + 1);
      assert ts[1..] == Numbered(Postgres, ps[1..], off + 1);
      assert ts[0] == Ph(Number(Postgres, off + 0), ps[0]);
      assert seq(|ps|, i => off + i)[1..] == seq(|ps[1..]|, i => off + 1 + i);
    }
  }

  /**
   * The PostgreSQL text of a statement, however its CTEs and set operations are nested, contains exactly `$1` to
   * `$n`, once each and in increasing order, and `$k` stands for the k-th of its n parameters.
   */
  lemma {:induction false} PlaceholdersInOrder(q: Query)
    requires QuietQuery(q) && |Params(q)| < USIZE_LIMIT
    ensures ScanPlaceholders(SqlText(Postgres, q)) == seq(|Params(q)|, i => 1 + i)
    ensures SqlText(Postgres, q) == Flatten(QueryToks(Postgres, q))
    ensures Slots(QueryToks(Postgres, q)) == seq(|Params(q)|, i requires 0 <= i < |Params(q)| => Ph(1 + i, Params(q)[i]))
  {
    hide *;
    var ts, ps := QueryToks(Postgres, q), Params(q);
    QuerySpelled(Postgres, q);
    QueryClean(Postgres, q);
    QueryNumbering(Postgres, q);
    Bounded(Postgres, ts, ps);
    ScanFlatten(ts);
    NumbersOfSlots(ts);
    NumbersUp(ps, 1);
    FromOne(ps);
  }

  lemma {:induction false} FromOne(ps: seq<SqlValue>)
    ensures Numbered(Postgres, ps, 1) == seq(|ps|, i requires 0 <= i < |ps| => Ph(1 + i, ps[i]))
  {
    forall i | 0 <= i < |ps|
      ensures Numbered(Postgres, ps, 1)[i] == Ph(1 + i, ps[i])
    {
      assert Numbered(Postgres, ps, 1)[i] == Ph(Number(Postgres, 1 + i), ps[i]);
    }
  }

  // ----- The two dialects -----

  predicate NeutralQuery(q: Query)
    decreases q, 1
  {
    NeutralItems(q.conds) && NeutralCtes(q.ctes) && (q.setOp.SetWith? ==> NeutralQuery(q.setOp.rhs))
  }

  predicate NeutralCtes(ctes: seq<Cte>)
    decreases ctes, 0
  {
    ctes != [] ==>
      assert ctes[0].sub < ctes[0];
      NeutralQuery(ctes[0].sub) && NeutralCtes(ctes[1..])
  }

  lemma {:induction false} MoveErase(d: Dialect, ts: seq<Tok>, n: nat)
    ensures Erase(MoveBy(d, ts, n)) == Erase(ts)
  {
  }

  lemma {:induction false} WhereErase(conds: seq<Item>, off: nat)
    requires NeutralItems(conds)
    ensures Erase(WhereToks(Postgres, conds, off)) == Erase(WhereToks(Qmark, conds, off))
  {
    if conds != [] {
      ItemsErase(Postgres, Qmark, conds, off, off);
      hide ItemsToks;
      EraseCat([Frag(" WHERE ")], ItemsToks(Postgres, conds, off));
      EraseCat([Frag(" WHERE ")], ItemsToks(Qmark, conds, off));
    }
  }

  lemma {:induction false} PiecesErase(all: seq<Tok>, a: seq<Tok>, head: string, b: seq<Tok>, cs: seq<string>, c: seq<Tok>)
    requires all == Pieces(a, head, b, cs, c)
    ensures Erase(all) == Pieces(Erase(a), head, Erase(b), cs, Erase(c))
  {
    EraseCat(a, [Frag(head)]);
    EraseCat(a + [Frag(head)], b);
    EraseCat(a + [Frag(head)] + b, ClauseToks(cs));
    EraseCat(a + [Frag(head)] + b + ClauseToks(cs), c);
  }

  lemma {:induction false} QueryErase(q: Query)
    requires NeutralQuery(q)
    ensures Erase(QueryToks(Postgres, q)) == Erase(QueryToks(Qmark, q))
    decreases q, 1
  {
    var n := |CteParams(q.ctes)|;
    var n' := n + |ItemsParams(q.conds)|;
    hide QueryToks, CtesToks, SetToks, WhereToks, Pieces, Params;
    CtesErase(q.ctes);
    WhereErase(q.conds, n + 1);
    SetErase(q.setOp, n');
    QueryIs(Postgres, q);
    QueryIs(Qmark, q);
    hide *;
    PiecesErase(QueryToks(Postgres, q), CtesToks(Postgres, q.ctes), SelectHead(q), WhereToks(Postgres, q.conds, n + 1),
                q.clauses, SetToks(Postgres, q.setOp, n'));
    PiecesErase(QueryToks(Qmark, q), CtesToks(Qmark, q.ctes), SelectHead(q), WhereToks(Qmark, q.conds, n + 1),
                q.clauses, SetToks(Qmark, q.setOp, n'));
  }

  lemma {:induction false} SetErase(s: SetOp, n: nat)
    requires s.SetWith? ==> NeutralQuery(s.rhs)
    ensures Erase(SetToks(Postgres, s, n)) == Erase(SetToks(Qmark, s, n))
    decreases s, 2
  {
    if s.SetWith? {
      QueryErase(s.rhs);
      SetToksErase(Postgres, s, n);
      SetToksErase(Qmark, s, n);
    }
  }

  lemma {:induction false} SetToksErase(d: Dialect, s: SetOp, n: nat)
    requires s.SetWith?
    ensures Erase(SetToks(d, s, n)) == [Frag(" " + KindText(s.kind) + " SELECT ")] + CutToks(Erase(QueryToks(d, s.rhs)))
  {
    hide QueryToks;
    var cut := CutToks(QueryToks(d, s.rhs));
    MoveErase(d, cut, n);
    EraseCat([Frag(" " + KindText(s.kind) + " SELECT ")], MoveBy(d, cut, n));
    CutErase(QueryToks(d, s.rhs));
  }

  lemma {:induction false} CutErase(ts: seq<Tok>)
    ensures Erase(CutToks(ts)) == CutToks(Erase(ts))
  {
  }

  lemma {:induction false} CtesErase(ctes: seq<Cte>)
    requires NeutralCtes(ctes)
    ensures Erase(CtesToks(Postgres, ctes)) == Erase(CtesToks(Qmark, ctes))
    decreases ctes, 1
  {
    if ctes != [] {
      CteListErase(ctes, 0);
      hide CteListToks;
      EraseWrap([Frag(WithWord(ctes))], CteListToks(Postgres, ctes, 0), [Frag(" ")]);
      EraseWrap([Frag(WithWord(ctes))], CteListToks(Qmark, ctes, 0), [Frag(" ")]);
    }
  }

  lemma {:induction false} NeutralCtesIs(ctes: seq<Cte>)
    requires NeutralCtes(ctes) && ctes != []
    ensures NeutralQuery(ctes[0].sub) && NeutralCtes(ctes[1..])
  {
  }

  lemma {:induction false} CteListErase(ctes: seq<Cte>, n: nat)
    requires NeutralCtes(ctes)
    ensures Erase(CteListToks(Postgres, ctes, n)) == Erase(CteListToks(Qmark, ctes, n))
    decreases ctes, 0
  {
    hide *;
    if ctes == [] {
      NoCtes(Postgres, n);
      NoCtes(Qmark, n);
    } else {
      assert ctes[0].sub < ctes[0];
      NeutralCtesIs(ctes);
      QueryErase(ctes[0].sub);
      CteListErase(ctes[1..], n + |Params(ctes[0].sub)|);
      NextCteErase(Postgres, ctes, n);
      NextCteErase(Qmark, ctes, n);
    }
  }

  lemma {:induction false} NextCteErase(d: Dialect, ctes: seq<Cte>, n: nat)
    requires ctes != []
    ensures Erase(CteListToks(d, ctes, n))
         == CteToks(CteHead(ctes[0]), Erase(QueryToks(d, ctes[0].sub)), |ctes| > 1,
                    Erase(CteListToks(d, ctes[1..], n + |Params(ctes[0].sub)|)))
  {
    CteListIs(d, ctes, n);
    hide *;
    MoveErase(d, QueryToks(d, ctes[0].sub), n);
    CteErase(CteListToks(d, ctes, n), CteHead(ctes[0]), MoveBy(d, QueryToks(d, ctes[0].sub), n), |ctes| > 1,
             CteListToks(d, ctes[1..], n + |Params(ctes[0].sub)|));
  }

  lemma {:induction false} CteErase(ts: seq<Tok>, head: string, body: seq<Tok>, another: bool, more: seq<Tok>)
    requires ts == CteToks(head, body, another, more)
    ensures Erase(ts) == CteToks(head, Erase(body), another, Erase(more))
  {
    var close := if another then "), " else ")";
    EraseWrap([Frag(head)], body, [Frag(close)]);
    EraseCat([Frag(head)] + body + [Frag(close)], more);
  }

  /** For conditions that both dialects spell alike, the `?` text is the `$N` text with the numbers erased. */
  lemma {:induction false} DialectsAgree(q: Query)
    requires QuietQuery(q) && NeutralQuery(q) && |Params(q)| < USIZE_LIMIT
    ensures SqlText(Qmark, q) == Unnumber(SqlText(Postgres, q))
  {
    var pg, qm, ps := QueryToks(Postgres, q), QueryToks(Qmark, q), Params(q);
    QuerySpelled(Postgres, q);
    QuerySpelled(Qmark, q);
    QueryClean(Postgres, q);
    QueryNumbering(Postgres, q);
    QueryNumbering(Qmark, q);
    Bounded(Postgres, pg, ps);
    Bounded(Qmark, qm, ps);
    QueryErase(q);
    UnnumberFlatten(pg);
    hide SqlText, QueryToks, Params, Flatten, Unnumber, Slots, QuietQuery, NeutralQuery;
    assert Erase(qm) == qm;
  }
}
