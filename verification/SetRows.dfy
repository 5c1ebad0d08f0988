/** The rows of a statement with a set operation, from the rows of its two sides. */
module SetRows {
  import opened Text
  import opened Values
  import opened Tokens
  import opened Leaves
  import opened Conditions
  import opened Queries
  import opened SetOps
  import opened Nesting
  import opened QueryReading

  /** Two statements with the words between them; both sides see the entries of WITH. */
  datatype Sides = Sides(defs: seq<Definition>, left: seq<Tok>, combination: Combination, right: seq<Tok>)

  /** The SELECT between the two sides belongs to the right one. */
  function WithSelect(ts: seq<Tok>): seq<Tok> {
    if ts != [] && ts[0].Frag? then [Frag("SELECT " + ts[0].s)] + ts[1..] else [Frag("SELECT ")] + ts
  }

  /** A statement taken apart at its first set operation outside parentheses. */
  function ReadSides(ts: seq<Tok>): Option<Sides> {
    match ReadWith(ts)
    case None => None
    case Some(with) =>
      if with.rest == [] then None
      else
        var body := with.rest[1..];
        var k := PartAt(body, 0, IsSet);
        if k == |body| || !body[k].Frag? || ReadCombination(body[k].s).None? then None
        else Some(Sides(with.defs, [with.rest[0]] + body[..k], ReadCombination(body[k].s).value, WithSelect(body[k + 1..])))
  }

  /** The rows of both sides are combined as the words ask for; `run` gives the rows of one SELECT. */
  ghost predicate RowsAre<R(!new)>(ts: seq<Tok>, run: (seq<Definition>, seq<Tok>) -> multiset<R>, out: multiset<R>) {
    match ReadSides(ts)
    case None => out == run([], Erase(ts))
    case Some(s) => Combines(s.combination, run(s.defs, Erase(s.left)), run(s.defs, Erase(s.right)), out)
  }

  /** A side of a set operation that is a single SELECT. */
  predicate OneSelect(q: Query) {
    q.ctes == [] && q.setOp.NoSet? && q.cols != "" && !IsSpace(q.cols[0])
  }

  lemma {:induction false} SelectBack(cols: string, more: string)
    requires cols != "" && !IsSpace(cols[0])
    ensures "SELECT " + CutSelect("SELECT " + cols + more) == "SELECT " + cols + more
  {
    var s := "SELECT " + cols + more;
    assert s[0] == 'S' && !IsSpace('S');
    assert TrimStart(s) == s && "SELECT" <= s;
    assert s[6..] == [' '] + (cols + more) && IsSpace(' ');
    assert s[6..][1..] == cols + more && (cols + more)[0] == cols[0];
    assert TrimStart(cols + more) == cols + more;
    assert TrimStart(s[6..]) == TrimStart(s[6..][1..]);
    assert s == "SELECT " + (cols + more);
  }

  lemma {:induction false} SideIs(d: Dialect, q: Query)
    requires q.ctes == [] && q.setOp.NoSet?
    ensures QueryToks(d, q) == [Frag(SelectHead(q))] + (WhereToks(d, q.conds, 1) + ClauseToks(q.clauses))
  {
    hide WhereToks, ClauseToks;
    assert CtesToks(d, []) == [] && |CteParams([])| == 0;
    assert [] + [Frag(SelectHead(q))] == [Frag(SelectHead(q))];
  }

  lemma {:induction false} RightIsBack(d: Dialect, q: Query, n: nat)
    requires OneSelect(q)
    ensures Erase(WithSelect(RightSide(d, q, n))) == Erase(QueryToks(d, q))
  {
    hide WhereToks, ClauseToks, SelectHead, CutSelect, QueryToks, Shift;
    var head, rest := SelectHead(q), WhereToks(d, q.conds, 1) + ClauseToks(q.clauses);
    SideIs(d, q);
    HeadBack(q);
    CutIs(head, rest);
    MoveFirst(d, CutSelect(head), rest, n);
    MoveErase(d, rest, n);
    FirstErase("SELECT " + CutSelect(head), MoveBy(d, rest, n));
    FirstErase(head, rest);
  }

  lemma {:induction false} HeadBack(q: Query)
    requires OneSelect(q)
    ensures "SELECT " + CutSelect(SelectHead(q)) == SelectHead(q)
  {
    hide CutSelect;
    SelectBack(q.cols, " FROM " + q.table + Spaces(q.joins));
    assert SelectHead(q) == "SELECT " + q.cols + (" FROM " + q.table + Spaces(q.joins));
  }

  lemma {:induction false} CutIs(head: string, rest: seq<Tok>)
    ensures CutToks([Frag(head)] + rest) == [Frag(CutSelect(head))] + rest
  {
    assert ([Frag(head)] + rest)[1..] == rest;
  }

  lemma {:induction false} MoveFirst(d: Dialect, s: string, rest: seq<Tok>, n: nat)
    ensures MoveBy(d, [Frag(s)] + rest, n) == [Frag(s)] + MoveBy(d, rest, n)
    ensures WithSelect([Frag(s)] + MoveBy(d, rest, n)) == [Frag("SELECT " + s)] + MoveBy(d, rest, n)
  {
    hide Shift;
    if d.Postgres? {
      ShiftFirst(s, rest, n);
    }
    assert ([Frag(s)] + MoveBy(d, rest, n))[1..] == MoveBy(d, rest, n);
  }

  lemma {:induction false} ShiftFirst(s: string, rest: seq<Tok>, n: nat)
    ensures Shift([Frag(s)] + rest, n) == [Frag(s)] + Shift(rest, n)
  {
    var a, b := Shift([Frag(s)] + rest, n), [Frag(s)] + Shift(rest, n);
    assert |a| == |b|;
    forall i | 0 <= i < |a|
      ensures a[i] == b[i]
    {
      assert i > 0 ==> ([Frag(s)] + rest)[i] == rest[i - 1];
    }
  }

  lemma {:induction false} FirstErase(s: string, rest: seq<Tok>)
    ensures Erase([Frag(s)] + rest) == [Frag(s)] + Erase(rest)
  {
  }

  /** The statement of the left side alone, without the entries of WITH. */
  function LeftAlone(q: Query): Query {
    q.(ctes := [], setOp := NoSet)
  }

  lemma {:induction false} LeftIsBack(d: Dialect, q: Query, off: nat)
    ensures Erase([Frag(SelectHead(q))] + (WhereToks(d, q.conds, off) + ClauseToks(q.clauses))) == Erase(QueryToks(d, LeftAlone(q)))
  {
    hide ItemsToks, ClauseToks, SelectHead, QueryToks;
    var rest, rest' := WhereToks(d, q.conds, off) + ClauseToks(q.clauses), WhereToks(d, q.conds, 1) + ClauseToks(q.clauses);
    SameHead(q);
    SideIs(d, LeftAlone(q));
    ItemsErase(d, d, q.conds, off, 1);
    WhereAnywhere(d, q.conds, off);
    EraseTwo(WhereToks(d, q.conds, off), WhereToks(d, q.conds, 1), ClauseToks(q.clauses));
    FirstErase(SelectHead(q), rest);
    FirstErase(SelectHead(q), rest');
  }

  lemma {:induction false} SameHead(q: Query)
    ensures SelectHead(LeftAlone(q)) == SelectHead(q)
  {
  }

  lemma {:induction false} WhereAnywhere(d: Dialect, conds: seq<Item>, off: nat)
    requires Erase(ItemsToks(d, conds, off)) == Erase(ItemsToks(d, conds, 1))
    ensures Erase(WhereToks(d, conds, off)) == Erase(WhereToks(d, conds, 1))
  {
    hide ItemsToks;
    if conds != [] {
      hide Erase;
      FirstErase(" WHERE ", ItemsToks(d, conds, off));
      FirstErase(" WHERE ", ItemsToks(d, conds, 1));
    }
  }

  lemma {:induction false} EraseTwo(a: seq<Tok>, b: seq<Tok>, c: seq<Tok>)
    requires Erase(a) == Erase(b)
    ensures Erase(a + c) == Erase(b + c)
  {
    hide Erase;
    EraseCat(a, c);
    EraseCat(b, c);
  }

  lemma {:induction false} SidesOf(ts: seq<Tok>, with: With, first: Tok, body: seq<Tok>, word: string, right: seq<Tok>)
    requires ReadWith(ts) == Some(with) && with.rest == [first] + (body + ([Frag(word)] + right))
    requires PartAt(body + ([Frag(word)] + right), 0, IsSet) == |body| && ReadCombination(word).Some?
    ensures ReadSides(ts) == Some(Sides(with.defs, [first] + body, ReadCombination(word).value, WithSelect(right)))
  {
    hide ReadWith, PartAt, ReadCombination, WithSelect;
    var after := body + ([Frag(word)] + right);
    assert with.rest[1..] == after && after[..|body|] == body && after[|body|] == Frag(word) && after[|body| + 1..] == right;
  }

  /** Both sides and the operation between them are found again. */
  lemma {:induction false} SidesRead(d: Dialect, q: Query)
    requires CalmQuery(q) && q.setOp.SetWith?
    ensures var n := |CteParams(q.ctes)|;
            var left := [Frag(SelectHead(q))] + (WhereToks(d, q.conds, n + 1) + ClauseToks(q.clauses));
            ReadSides(QueryToks(d, q))
            == Some(Sides(Defined(d, q.ctes, 0), left, Meant(q.setOp.kind),
                          WithSelect(RightSide(d, q.setOp.rhs, n + |ItemsParams(q.conds)|))))
  {
    hide QueryToks, CtesToks, WhereToks, ClauseToks, CteParams, ItemsParams, ReadWith, PartAt, GoesOn, Balanced;
    hide SelectHead, RightSide, Defined, ItemsToks, Meant, Params, Pieces, CalmQuery, CalmCtes, CalmItems, CalmClauses;
    hide AnyRecursive, FirstAfter, ReadSides, KindText, WithSelect, ReadCombination, SetToks;
    var n := |CteParams(q.ctes)|;
    var n' := n + |ItemsParams(q.conds)|;
    var tests, clauses, more := WhereToks(d, q.conds, n + 1), ClauseToks(q.clauses), SetToks(d, q.setOp, n');
    var rest := [Frag(SelectHead(q))] + (tests + clauses + more);
    QueryIs(d, q);
    CalmQueryIs(q);
    PiecesAre(CtesToks(d, q.ctes), SelectHead(q), tests, q.clauses, more);
    SelectIsNoWith(q);
    WithRead(d, q.ctes, rest);
    WhereBalanced(d, q.conds, n + 1);
    SetAt(d, q.setOp, n');
    ClausesAt(q.clauses, more);
    PartsAt(tests, clauses, more);
    SetIs(d, q.setOp, n');
    KindReads(q.setOp.kind);
    SidesOf(QueryToks(d, q), With(AnyRecursive(q.ctes), Defined(d, q.ctes, 0), rest),
            Frag(SelectHead(q)), tests + clauses, " " + KindText(q.setOp.kind) + " SELECT ", RightSide(d, q.setOp.rhs, n'));
  }

  lemma {:induction false} SetIs(d: Dialect, s: SetOp, n: nat)
    requires s.SetWith?
    ensures SetToks(d, s, n) == [Frag(" " + KindText(s.kind) + " SELECT ")] + RightSide(d, s.rhs, n)
  {
    hide QueryToks, MoveBy, CutToks, KindText;
  }

  /**
   * The rows of a statement are those that the set operation asks for: of the rows of either side, each run as a
   * statement of its own with the entries of WITH in scope.
   */
  lemma {:induction false} RowsAreAsked<R(!new)>(d: Dialect, q: Query, run: (seq<Definition>, seq<Tok>) -> multiset<R>,
                                                 out: multiset<R>)
    requires CalmQuery(q) && q.setOp.SetWith? && OneSelect(q.setOp.rhs)
    ensures var defs := Defined(d, q.ctes, 0);
            RowsAre(QueryToks(d, q), run, out)
            <==> Asks(q.setOp.kind, run(defs, Erase(QueryToks(d, LeftAlone(q)))), run(defs, Erase(QueryToks(d, q.setOp.rhs))), out)
  {
    hide QueryToks, ReadSides, WhereToks, ClauseToks, CalmQuery, Asks, Combines, Erase, RightSide, WithSelect, Defined;
    hide SelectHead, CteParams, ItemsParams, OneSelect, Meant, LeftAlone;
    var n := |CteParams(q.ctes)|;
    SidesRead(d, q);
    LeftIsBack(d, q, n + 1);
    RightIsBack(d, q.setOp.rhs, n + |ItemsParams(q.conds)|);
    var defs := Defined(d, q.ctes, 0);
    MeantIsAsked(q.setOp.kind, run(defs, Erase(QueryToks(d, LeftAlone(q)))), run(defs, Erase(QueryToks(d, q.setOp.rhs))), out);
  }
}
