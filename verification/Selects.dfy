/** `SelectBuilder`: clauses pushed one by one, then rendered with placeholders numbered across all of them. */
module Selects {
  import Text
  import opened Values
  import opened Tokens
  import opened Leaves
  import opened Exprs

  datatype JoinKind = Inner | Left | Right | Cross

  datatype JoinClause = JoinClause(kind: JoinKind, table: string, on: Option<Expr>)

  datatype Nulls = DefaultNulls | NullsFirst | NullsLast

  datatype Order = Order(col: string, descending: bool, nulls: Nulls)

  datatype Lock = ForUpdate | ForNoKeyUpdate | ForShare | ForKeyShare

  datatype Conflict = SkipLocked | NoWait

  /** The row lock with what to do about rows that others have locked. */
  datatype Locking = Locking(lock: Lock, conflict: Option<Conflict>)

  datatype Joint = Union | UnionAll | Intersect | Except

  /** A set operation with the text of its other side. */
  datatype SetPart = SetPart(joint: Joint, sql: string)

  /**
   * A snapshot of the builder. `head` is everything up to and including FROM and its source, which bind nothing
   * here, and neither do the set operations.
   */
  datatype Select = Select(head: string, joins: seq<JoinClause>, wheres: seq<Expr>, orWheres: seq<Expr>,
                           groupBy: seq<string>, havings: seq<Expr>, orders: seq<Order>,
                           limit: Option<nat>, offset: Option<nat>, locking: Option<Locking>, setParts: seq<SetPart>)

  // ----- Parameters -----

  function ChainParams(es: seq<Expr>): seq<SqlValue> {
    if es == [] then [] else ExprParams(es[0]) + ChainParams(es[1..])
  }

  function OnParams(on: Option<Expr>): seq<SqlValue> {
    if on.Some? then ExprParams(on.value) else []
  }

  function JoinParams(js: seq<JoinClause>): seq<SqlValue> {
    if js == [] then [] else OnParams(js[0].on) + JoinParams(js[1..])
  }

  function SelectParams(s: Select): seq<SqlValue> {
    JoinParams(s.joins) + (ChainParams(s.wheres) + ChainParams(s.orWheres)) + ChainParams(s.havings)
  }

  // ----- Rendering -----

  /** Expressions in a row, with the separator between them. */
  function Chain(d: Dialect, es: seq<Expr>, sep: Tok, off: nat): seq<Tok> {
    if es == [] then [] else ExprToks(d, es[0], off) + ChainTail(d, es[1..], sep, off + |ExprParams(es[0])|)
  }

  function ChainTail(d: Dialect, es: seq<Expr>, sep: Tok, off: nat): seq<Tok> {
    if es == [] then []
    else [sep] + ExprToks(d, es[0], off) + ChainTail(d, es[1..], sep, off + |ExprParams(es[0])|)
  }

  function JoinWords(k: JoinKind): string {
    match k
    case Inner => "INNER JOIN"
    case Left => "LEFT JOIN"
    case Right => "RIGHT JOIN"
    case Cross => "CROSS JOIN"
  }

  function JoinText(j: JoinClause): string {
    " " + JoinWords(j.kind) + " \"" + j.table + "\"" + if j.on.Some? then " ON " else ""
  }

  function OnToks(d: Dialect, on: Option<Expr>, off: nat): seq<Tok> {
    if on.Some? then ExprToks(d, on.value, off) else []
  }

  function JoinToks(d: Dialect, js: seq<JoinClause>, off: nat): seq<Tok> {
    if js == [] then []
    else [Frag(JoinText(js[0]))] + OnToks(d, js[0].on, off) + JoinToks(d, js[1..], off + |OnParams(js[0].on)|)
  }

  /** The predicate after WHERE. An AND part without text is left out when there is an OR part. */
  function Predicate(a: seq<Tok>, o: seq<Tok>, anyOr: bool): seq<Tok> {
    if !anyOr then a
    else if Flatten(a) == "" then o
    else [LP] + a + [RP] + [OR] + ([LP] + o + [RP])
  }

  function WhereClause(d: Dialect, wheres: seq<Expr>, ors: seq<Expr>, off: nat): seq<Tok> {
    if wheres == [] && ors == [] then []
    else
      [Frag(" WHERE ")]
      + Predicate(Chain(d, wheres, AND, off), Chain(d, ors, OR, off + |ChainParams(wheres)|), ors != [])
  }

  function HavingClause(d: Dialect, hs: seq<Expr>, off: nat): seq<Tok> {
    if hs == [] then [] else [Frag(" HAVING ")] + Chain(d, hs, AND, off)
  }

  function NullsText(nulls: Nulls): string {
    match nulls
    case DefaultNulls => ""
    case NullsFirst => " NULLS FIRST"
    case NullsLast => " NULLS LAST"
  }

  function OrderText(o: Order): string {
    o.col + " " + (if o.descending then "DESC" else "ASC") + NullsText(o.nulls)
  }

  function OrderTexts(os: seq<Order>): seq<string> {
    seq(|os|, i requires 0 <= i < |os| => OrderText(os[i]))
  }

  function GroupText(cols: seq<string>): string {
    if cols == [] then "" else " GROUP BY " + Text.Join(cols, ", ")
  }

  function LockWords(l: Lock): string {
    match l
    case ForUpdate => "FOR UPDATE"
    case ForNoKeyUpdate => "FOR NO KEY UPDATE"
    case ForShare => "FOR SHARE"
    case ForKeyShare => "FOR KEY SHARE"
  }

  function ConflictText(c: Option<Conflict>): string {
    match c
    case None => ""
    case Some(SkipLocked) => " SKIP LOCKED"
    case Some(NoWait) => " NOWAIT"
  }

  function JointWords(j: Joint): string {
    match j
    case Union => "UNION"
    case UnionAll => "UNION ALL"
    case Intersect => "INTERSECT"
    case Except => "EXCEPT"
  }

  function SetText(parts: seq<SetPart>): string {
    if parts == [] then "" else " " + JointWords(parts[0].joint) + " (" + parts[0].sql + ")" + SetText(parts[1..])
  }

  function LockText(l: Option<Locking>): string {
    if l.Some? then " " + LockWords(l.value.lock) + ConflictText(l.value.conflict) else ""
  }

  function OrdersText(os: seq<Order>): string {
    if os == [] then "" else " ORDER BY " + Text.Join(OrderTexts(os), ", ")
  }

  function CountText(word: string, n: Option<nat>): string {
    if n.Some? then word + Text.Decimal(n.value) else ""
  }

  function TailText(s: Select): string {
    OrdersText(s.orders) + CountText(" LIMIT ", s.limit) + CountText(" OFFSET ", s.offset)
    + LockText(s.locking) + SetText(s.setParts)
  }

  function SelectToks(d: Dialect, s: Select): seq<Tok> {
    var n := |JoinParams(s.joins)|;
    var n' := n + |ChainParams(s.wheres) + ChainParams(s.orWheres)|;
    [Frag(s.head)] + JoinToks(d, s.joins, 1) + WhereClause(d, s.wheres, s.orWheres, n + 1)
    + [Frag(GroupText(s.groupBy))] + HavingClause(d, s.havings, n' + 1) + [Frag(TailText(s))]
  }

  // ----- Numbering -----

  lemma {:induction false} ChainSlots(d: Dialect, es: seq<Expr>, sep: Tok, off: nat)
    requires !sep.Ph?
    ensures Slots(Chain(d, es, sep, off)) == Numbered(d, ChainParams(es), off)
  {
    hide ExprToks, ExprParams, Numbered;
    if es == [] {
      NothingNumbered(d, off);
    } else {
      var ps := ExprParams(es[0]);
      ExprNumbering(d, es[0], off);
      ChainTailSlots(d, es[1..], sep, off + |ps|);
      SlotsCat(ExprToks(d, es[0], off), ChainTail(d, es[1..], sep, off + |ps|));
      NumberedCat(d, ps, ChainParams(es[1..]), off);
    }
  }

  lemma {:induction false} ChainTailSlots(d: Dialect, es: seq<Expr>, sep: Tok, off: nat)
    requires !sep.Ph?
    ensures Slots(ChainTail(d, es, sep, off)) == Numbered(d, ChainParams(es), off)
  {
    hide ExprToks, ExprParams, Numbered;
    if es == [] {
      NothingNumbered(d, off);
    } else {
      var ps := ExprParams(es[0]);
      ExprNumbering(d, es[0], off);
      ChainTailSlots(d, es[1..], sep, off + |ps|);
      SlotsCat([sep], ExprToks(d, es[0], off));
      SlotsCat([sep] + ExprToks(d, es[0], off), ChainTail(d, es[1..], sep, off + |ps|));
      NumberedCat(d, ps, ChainParams(es[1..]), off);
    }
  }

  lemma {:induction false} JoinSlots(d: Dialect, js: seq<JoinClause>, off: nat)
    ensures Slots(JoinToks(d, js, off)) == Numbered(d, JoinParams(js), off)
  {
    hide ExprToks, ExprParams, Numbered, JoinText;
    NothingNumbered(d, off);
    if js != [] {
      var ps := OnParams(js[0].on);
      if js[0].on.Some? {
        ExprNumbering(d, js[0].on.value, off);
      }
      JoinSlots(d, js[1..], off + |ps|);
      SlotsCat([Frag(JoinText(js[0]))], OnToks(d, js[0].on, off));
      SlotsCat([Frag(JoinText(js[0]))] + OnToks(d, js[0].on, off), JoinToks(d, js[1..], off + |ps|));
      NumberedCat(d, ps, JoinParams(js[1..]), off);
    }
  }

  /** Text-free tokens bind nothing. */
  lemma {:induction false} NoTextNoSlots(ts: seq<Tok>)
    requires Flatten(ts) == ""
    ensures Slots(ts) == []
  {
    if ts != [] {
      NoTextNoSlots(ts[1..]);
    }
  }

  lemma {:induction false} PredicateSlots(a: seq<Tok>, o: seq<Tok>, anyOr: bool)
    requires !anyOr ==> Slots(o) == []
    ensures Slots(Predicate(a, o, anyOr)) == Slots(a) + Slots(o)
  {
    hide Flatten;
    if anyOr {
      if Flatten(a) == "" {
        NoTextNoSlots(a);
      } else {
        var left, right := [LP] + a + [RP] + [OR], [LP] + o + [RP];
        SlotsCat(left, right);
        SlotsCat([LP] + a + [RP], [OR]);
        SlotsWrap([LP], a, [RP]);
        SlotsWrap([LP], o, [RP]);
      }
    }
  }

  lemma {:induction false} WhereSlots(d: Dialect, wheres: seq<Expr>, ors: seq<Expr>, off: nat)
    ensures Slots(WhereClause(d, wheres, ors, off)) == Numbered(d, ChainParams(wheres) + ChainParams(ors), off)
  {
    hide Predicate, Numbered, ExprToks, ExprParams;
    NothingNumbered(d, off);
    var off' := off + |ChainParams(wheres)|;
    ChainSlots(d, wheres, AND, off);
    ChainSlots(d, ors, OR, off');
    if wheres != [] || ors != [] {
      var p := Predicate(Chain(d, wheres, AND, off), Chain(d, ors, OR, off'), ors != []);
      PredicateSlots(Chain(d, wheres, AND, off), Chain(d, ors, OR, off'), ors != []);
      SlotsCat([Frag(" WHERE ")], p);
      NumberedCat(d, ChainParams(wheres), ChainParams(ors), off);
    } else {
      assert ChainParams(wheres) + ChainParams(ors) == [];
    }
  }

  lemma {:induction false} HavingSlots(d: Dialect, hs: seq<Expr>, off: nat)
    ensures Slots(HavingClause(d, hs, off)) == Numbered(d, ChainParams(hs), off)
  {
    hide Numbered, ExprToks, ExprParams;
    NothingNumbered(d, off);
    if hs != [] {
      ChainSlots(d, hs, AND, off);
      SlotsCat([Frag(" HAVING ")], Chain(d, hs, AND, off));
    }
  }

  /** The placeholders of a rendered SELECT number the values of ON, WHERE, OR WHERE and HAVING consecutively from 1. */
  lemma {:induction false} SelectNumbering(d: Dialect, s: Select)
    ensures Slots(SelectToks(d, s)) == Numbered(d, SelectParams(s), 1)
  {
    hide JoinToks, WhereClause, HavingClause, Numbered, JoinParams, ChainParams, TailText, GroupText;
    var jp, wp, hp := JoinParams(s.joins), ChainParams(s.wheres) + ChainParams(s.orWheres), ChainParams(s.havings);
    JoinSlots(d, s.joins, 1);
    WhereSlots(d, s.wheres, s.orWheres, |jp| + 1);
    HavingSlots(d, s.havings, |jp| + |wp| + 1);
    ClausesSlots(s.head, JoinToks(d, s.joins, 1), WhereClause(d, s.wheres, s.orWheres, |jp| + 1), GroupText(s.groupBy),
                 HavingClause(d, s.havings, |jp| + |wp| + 1), TailText(s));
    NumberedCat(d, jp, wp, 1);
    NumberedCat(d, jp + wp, hp, 1);
  }

  lemma {:induction false} ClausesSlots(head: string, a: seq<Tok>, b: seq<Tok>, group: string, c: seq<Tok>, tail: string)
    ensures Slots([Frag(head)] + a + b + [Frag(group)] + c + [Frag(tail)]) == Slots(a) + Slots(b) + Slots(c)
  {
    SlotsCat([Frag(head)] + a + b + [Frag(group)] + c, [Frag(tail)]);
    SlotsCat([Frag(head)] + a + b + [Frag(group)], c);
    SlotsCat([Frag(head)] + a + b, [Frag(group)]);
    SlotsCat([Frag(head)] + a, b);
    SlotsCat([Frag(head)], a);
  }

  // ----- The builder as written -----

  /** What is still to be rendered of a chain from entry `idx` on. */
  function ChainRest(d: Dialect, es: seq<Expr>, idx: nat, sep: Tok, off: nat): seq<Tok>
    requires idx <= |es|
  {
    if idx == 0 then Chain(d, es, sep, off) else ChainTail(d, es[idx..], sep, off)
  }

  lemma {:induction false} ChainNext(d: Dialect, es: seq<Expr>, idx: nat, sep: Tok, off: nat, done: seq<Tok>)
    requires idx < |es|
    ensures ChainParams(es[idx..]) == ExprParams(es[idx]) + ChainParams(es[idx + 1..])
    ensures (if idx > 0 then done + [sep] else done) + ExprToks(d, es[idx], off)
            + ChainRest(d, es, idx + 1, sep, off + |ExprParams(es[idx])|)
         == done + ChainRest(d, es, idx, sep, off)
  {
    hide ExprToks, ExprParams;
    assert es[idx..][1..] == es[idx + 1..];
    var now := ExprToks(d, es[idx], off);
    var more := ChainTail(d, es[idx + 1..], sep, off + |ExprParams(es[idx])|);
    if idx == 0 {
      assert es[0..] == es;
      assert done + now + more == done + (now + more);
    } else {
      assert done + [sep] + now + more == done + ([sep] + now + more);
    }
  }

  lemma {:induction false} ChainEnds(d: Dialect, es: seq<Expr>, sep: Tok, off: nat)
    ensures ChainRest(d, es, |es|, sep, off) == [] && ChainParams(es[|es|..]) == []
    ensures ChainRest(d, es, 0, sep, off) == Chain(d, es, sep, off) && es[0..] == es
  {
  }

  method RenderChain(d: Dialect, es: seq<Expr>, sep: Tok, params: seq<SqlValue>) returns (frags: seq<Tok>, all: seq<SqlValue>)
    ensures frags == Chain(d, es, sep, |params| + 1) && all == params + ChainParams(es)
  {
    hide *;
    frags, all := [], params;
    ChainEnds(d, es, sep, |params| + 1);
    for idx := 0 to |es|
      invariant all + ChainParams(es[idx..]) == params + ChainParams(es)
      invariant frags + ChainRest(d, es, idx, sep, |all| + 1) == Chain(d, es, sep, |params| + 1)
    {
      ChainNext(d, es, idx, sep, |all| + 1, frags);
      var toks := ExprToks(d, es[idx], |all| + 1);
      if idx > 0 {
        frags := frags + [sep];
      }
      frags := frags + toks;
      all := all + ExprParams(es[idx]);
    }
    ChainEnds(d, es, sep, |all| + 1);
  }

  lemma {:induction false} JoinNext(d: Dialect, js: seq<JoinClause>, k: nat, off: nat, done: seq<Tok>)
    requires k < |js|
    ensures JoinParams(js[k..]) == OnParams(js[k].on) + JoinParams(js[k + 1..])
    ensures done + ([Frag(JoinText(js[k]))] + OnToks(d, js[k].on, off)) + JoinToks(d, js[k + 1..], off + |OnParams(js[k].on)|)
         == done + JoinToks(d, js[k..], off)
  {
    hide OnToks, OnParams, JoinText;
    assert js[k..][1..] == js[k + 1..];
  }

  lemma {:induction false} JoinEnds(d: Dialect, off: nat)
    ensures JoinToks(d, [], off) == [] && JoinParams([]) == []
  {
  }

  lemma {:induction false} NoOn(d: Dialect, on: Option<Expr>, off: nat)
    ensures OnToks(d, on, off) == if on.Some? then ExprToks(d, on.value, off) else []
    ensures OnParams(on) == if on.Some? then ExprParams(on.value) else []
  {
    hide ExprToks, ExprParams;
  }

  method RenderJoins(d: Dialect, js: seq<JoinClause>) returns (sql: seq<Tok>, params: seq<SqlValue>)
    ensures sql == JoinToks(d, js, 1) && params == JoinParams(js)
  {
    hide *;
    sql, params := [], [];
    assert js[0..] == js;
    for k := 0 to |js|
      invariant params + JoinParams(js[k..]) == JoinParams(js)
      invariant sql + JoinToks(d, js[k..], |params| + 1) == JoinToks(d, js, 1)
    {
      JoinNext(d, js, k, |params| + 1, sql);
      NoOn(d, js[k].on, |params| + 1);
      var on: seq<Tok>, ps: seq<SqlValue> := [], [];
      if js[k].on.Some? {
        on, ps := ExprToks(d, js[k].on.value, |params| + 1), ExprParams(js[k].on.value);
      }
      sql := sql + ([Frag(JoinText(js[k]))] + on);
      params := params + ps;
    }
    assert js[|js|..] == [];
    JoinEnds(d, |params| + 1);
  }

  class SelectBuilder {
    var head: string
    var joins: seq<JoinClause>
    var wheres: seq<Expr>
    var orWheres: seq<Expr>
    var groupBy: seq<string>
    var havings: seq<Expr>
    var orders: seq<Order>
    var limit: Option<nat>
    var offset: Option<nat>
    var locking: Option<Locking>
    var setParts: seq<SetPart>

    constructor (table: string)
      ensures Snapshot() == Select(FromTable(table), [], [], [], [], [], [], None, None, None, [])
    {
      head := FromTable(table);
      joins, wheres, orWheres, groupBy, havings, orders, setParts := [], [], [], [], [], [], [];
      limit, offset, locking := None, None, None;
    }

    function Snapshot(): Select
      reads this
    {
      Select(head, joins, wheres, orWheres, groupBy, havings, orders, limit, offset, locking, setParts)
    }

    method Where(e: Expr)
      modifies this
      ensures Snapshot() == old(Snapshot()).(wheres := old(wheres) + [e])
    {
      wheres := wheres + [e];
    }

    method OrWhere(e: Expr)
      modifies this
      ensures Snapshot() == old(Snapshot()).(orWheres := old(orWheres) + [e])
    {
      orWheres := orWheres + [e];
    }

    method Join(j: JoinClause)
      modifies this
      ensures Snapshot() == old(Snapshot()).(joins := old(joins) + [j])
    {
      joins := joins + [j];
    }

    method GroupBy(cols: seq<string>)
      modifies this
      ensures Snapshot() == old(Snapshot()).(groupBy := old(groupBy) + cols)
    {
      groupBy := groupBy + cols;
    }

    method Having(e: Expr)
      modifies this
      ensures Snapshot() == old(Snapshot()).(havings := old(havings) + [e])
    {
      havings := havings + [e];
    }

    method OrderBy(o: Order)
      modifies this
      ensures Snapshot() == old(Snapshot()).(orders := old(orders) + [o])
    {
      orders := orders + [o];
    }

    method Limit(n: nat)
      modifies this
      ensures Snapshot() == old(Snapshot()).(limit := Some(n))
    {
      limit := Some(n);
    }

    method Offset(n: nat)
      modifies this
      ensures Snapshot() == old(Snapshot()).(offset := Some(n))
    {
      offset := Some(n);
    }

    method Lock(l: Lock)
      modifies this
      ensures Snapshot() == old(Snapshot()).(locking := Some(Locking(l, None)))
    {
      locking := Some(Locking(l, None));
    }

    /** Without a lock there is nothing to add the conflict rule to. */
    method OnConflict(c: Conflict)
      modifies this
      ensures Snapshot()
           == old(Snapshot()).(locking := if old(locking).Some? then Some(Locking(old(locking).value.lock, Some(c))) else None)
    {
      if locking.Some? {
        locking := Some(Locking(locking.value.lock, Some(c)));
      }
    }

    method Combine(joint: Joint, sql: string)
      modifies this
      ensures Snapshot() == old(Snapshot()).(setParts := old(setParts) + [SetPart(joint, sql)])
    {
      setParts := setParts + [SetPart(joint, sql)];
    }

    method Render(d: Dialect) returns (sql: seq<Tok>, params: seq<SqlValue>)
      ensures sql == SelectToks(d, Snapshot()) && params == SelectParams(Snapshot())
    {
      hide Chain, ChainParams, JoinToks, JoinParams, Predicate, TailText, GroupText, ExprToks, ExprParams,
           SelectToks, SelectParams, WhereClause, HavingClause, Flatten;
      SelectIs(d, Snapshot());
      sql, params := RenderJoins(d, joins);
      sql := [Frag(head)] + sql;
      var where: seq<Tok> := [];
      if wheres != [] || orWheres != [] {
        var ands, ors;
        ands, params := RenderChain(d, wheres, AND, params);
        ors, params := RenderChain(d, orWheres, OR, params);
        where := [Frag(" WHERE ")] + Predicate(ands, ors, orWheres != []);
      }
      sql := sql + where + [Frag(GroupText(groupBy))];
      var having: seq<Tok> := [];
      if havings != [] {
        having, params := RenderChain(d, havings, AND, params);
        having := [Frag(" HAVING ")] + having;
      }
      sql := sql + having + [Frag(TailText(Snapshot()))];
    }
  }

  lemma {:induction false} SelectIs(d: Dialect, s: Select)
    ensures var n := |JoinParams(s.joins)|;
            var n1 := n + |ChainParams(s.wheres)|;
            var n2 := n1 + |ChainParams(s.orWheres)|;
            var where :=
              if s.wheres == [] && s.orWheres == [] then []
              else [Frag(" WHERE ")] + Predicate(Chain(d, s.wheres, AND, n + 1), Chain(d, s.orWheres, OR, n1 + 1),
                                                 s.orWheres != []);
            var having := if s.havings == [] then [] else [Frag(" HAVING ")] + Chain(d, s.havings, AND, n2 + 1);
            && SelectToks(d, s) == [Frag(s.head)] + JoinToks(d, s.joins, 1) + where
                                   + [Frag(GroupText(s.groupBy))] + having + [Frag(TailText(s))]
            && SelectParams(s) == JoinParams(s.joins) + ChainParams(s.wheres) + ChainParams(s.orWheres) + ChainParams(s.havings)
    ensures s.wheres == [] ==> ChainParams(s.wheres) == []
    ensures s.orWheres == [] ==> ChainParams(s.orWheres) == []
    ensures s.havings == [] ==> ChainParams(s.havings) == []
  {
    hide Chain, JoinToks, JoinParams, Predicate, TailText, GroupText, ExprToks, ExprParams, Flatten;
  }

  function FromTable(table: string): string {
    "SELECT * FROM \"" + table + "\""
  }
}
