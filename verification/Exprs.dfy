/** `Expr`: the boolean expression tree of the typed query language. */
module Exprs {
  import opened Text
  import opened Values
  import opened Tokens
  import opened Leaves

  /** `Case` holds the branches and the optional ELSE value of a `CaseExpr`. */
  datatype Expr =
    | Compare(op: CmpOp, col: string, val: SqlValue)
    | Match(like: LikeOp, col: string, val: SqlValue)
    | InList(neg: bool, col: string, vals: seq<SqlValue>)
    | EqAny(col: string, vals: seq<SqlValue>)
    | NullTest(isNull: bool, col: string)
    | Between(neg: bool, col: string, lo: SqlValue, hi: SqlValue)
    | ColEq(left: string, right: string)
    | AggCmp(agg: string, rel: string, val: SqlValue)
    | And(l: Expr, r: Expr)
    | Or(l: Expr, r: Expr)
    | Not(inner: Expr)
    | Raw(sql: string)
    | Exists(positive: bool, sub: string)
    | InSubquery(neg: bool, col: string, sub: string)
    | Case(branches: seq<Branch>, elseVal: Option<SqlValue>)

  datatype Branch = Branch(cond: Expr, val: SqlValue)

  function ExprParams(e: Expr): seq<SqlValue>
    decreases e, 1
  {
    match e
    case Compare(_, _, v) => [v]
    case Match(_, _, v) => [v]
    case InList(_, _, vs) => vs
    case EqAny(_, vs) => vs
    case Between(_, _, lo, hi) => [lo, hi]
    case AggCmp(_, _, v) => [v]
    case And(l, r) => ExprParams(l) + ExprParams(r)
    case Or(l, r) => ExprParams(l) + ExprParams(r)
    case Not(inner) => ExprParams(inner)
    case Case(bs, els) => BranchParams(bs) + ElseParams(els)
    case _ => []
  }

  function BranchParams(bs: seq<Branch>): seq<SqlValue>
    decreases bs, 0
  {
    if bs == [] then []
    else
      assert bs[0].cond < bs[0];
      ExprParams(bs[0].cond) + [bs[0].val] + BranchParams(bs[1..])
  }

  function ElseParams(els: Option<SqlValue>): seq<SqlValue> {
    if els.Some? then [els.value] else []
  }

  /** An expression rendered with its first placeholder numbered `off`. */
  function ExprToks(d: Dialect, e: Expr, off: nat): seq<Tok>
    decreases e, 1
  {
    match e
    case Compare(op, col, v) => BinaryToks(d, col, CmpText(op), v, off)
    case Match(op, col, v) => BinaryToks(d, col, LikeText(op), v, off)
    case InList(neg, col, vs) => InToks(d, col, if neg then " NOT IN (" else " IN (", vs, off, ")")
    case EqAny(col, vs) => if vs == [] then [Frag("1=0")] else InToks(d, col, " = ANY(ARRAY[", vs, off, "])")
    case NullTest(n, col) => NullToks(n, col)
    case Between(neg, col, lo, hi) => BetweenToks(d, neg, col, lo, hi, off)
    case ColEq(a, b) => [Frag(a + " = " + b)]
    case AggCmp(agg, op, v) => BinaryToks(d, agg, " " + op + " ", v, off)
    case And(l, r) => Bracket(ExprToks(d, l, off), AND, ExprToks(d, r, off + |ExprParams(l)|))
    case Or(l, r) => Bracket(ExprToks(d, l, off), OR, ExprToks(d, r, off + |ExprParams(l)|))
    case Not(inner) => Negated(ExprToks(d, inner, off))
    case Raw(s) => [Frag(s)]
    case Exists(positive, sub) => [Frag(ExistsText(positive, sub))]
    case InSubquery(neg, col, sub) => [Frag(InSubqueryText(neg, col, sub))]
    case Case(bs, els) => CaseToks(d, bs, els, off)
  }

  function CaseToks(d: Dialect, bs: seq<Branch>, els: Option<SqlValue>, off: nat): seq<Tok>
    decreases bs, 3
  {
    [Frag("CASE")] + BranchToks(d, bs, off) + ElseToks(d, els, off + |BranchParams(bs)|) + [Frag(" END")]
  }

  function Bracket(left: seq<Tok>, join: Tok, right: seq<Tok>): seq<Tok> {
    [LP] + left + [join] + right + [RP]
  }

  function Negated(inner: seq<Tok>): seq<Tok> {
    [NOT] + [LP] + inner + [RP]
  }

  function ExistsText(positive: bool, sub: string): string {
    (if positive then "EXISTS (" else "NOT EXISTS (") + sub + ")"
  }

  function InSubqueryText(neg: bool, col: string, sub: string): string {
    col + (if neg then " NOT IN (" else " IN (") + sub + ")"
  }

  function OneBranch(d: Dialect, b: Branch, off: nat): seq<Tok>
    decreases b, 2
  {
    [Frag(" WHEN ")] + Opaque(ExprToks(d, b.cond, off)) + [Frag(" THEN ")]
    + [Ph(Number(d, off + |ExprParams(b.cond)|), b.val)]
  }

  function BranchToks(d: Dialect, bs: seq<Branch>, off: nat): seq<Tok>
    decreases bs, 0
  {
    if bs == [] then []
    else
      assert bs[0].cond < bs[0];
      OneBranch(d, bs[0], off) + BranchToks(d, bs[1..], off + |ExprParams(bs[0].cond)| + 1)
  }

  function ElseToks(d: Dialect, els: Option<SqlValue>, off: nat): seq<Tok> {
    if els.Some? then [Frag(" ELSE ")] + [Ph(Number(d, off), els.value)] else []
  }

  // ----- Numbering -----

  /** At any offset, the placeholders number the bound values consecutively and in order. */
  lemma {:induction false} ExprNumbering(d: Dialect, e: Expr, off: nat)
    ensures Slots(ExprToks(d, e, off)) == Numbered(d, ExprParams(e), off)
    decreases e, 1
  {
    hide Slots, Numbered, Bracket, Negated, CaseToks, BranchParams;
    match e
    case And(l, r) =>
      ExprNumbering(d, l, off);
      ExprNumbering(d, r, off + |ExprParams(l)|);
      AndNumbering(d, l, r, off);
    case Or(l, r) =>
      ExprNumbering(d, l, off);
      ExprNumbering(d, r, off + |ExprParams(l)|);
      OrNumbering(d, l, r, off);
    case Not(inner) =>
      ExprNumbering(d, inner, off);
      NotNumbering(d, inner, off);
    case Case(bs, els) =>
      CaseNumbering(d, bs, els, off);
    case _ => LeafNumbering(d, e, off);
  }

  lemma {:induction false} AndNumbering(d: Dialect, l: Expr, r: Expr, off: nat)
    requires Slots(ExprToks(d, l, off)) == Numbered(d, ExprParams(l), off)
    requires Slots(ExprToks(d, r, off + |ExprParams(l)|)) == Numbered(d, ExprParams(r), off + |ExprParams(l)|)
    ensures Slots(ExprToks(d, And(l, r), off)) == Numbered(d, ExprParams(l) + ExprParams(r), off)
  {
    hide Slots, Numbered, Bracket;
    BracketNumbering(d, ExprToks(d, l, off), ExprParams(l), AND,
                     ExprToks(d, r, off + |ExprParams(l)|), ExprParams(r), off);
  }

  lemma {:induction false} OrNumbering(d: Dialect, l: Expr, r: Expr, off: nat)
    requires Slots(ExprToks(d, l, off)) == Numbered(d, ExprParams(l), off)
    requires Slots(ExprToks(d, r, off + |ExprParams(l)|)) == Numbered(d, ExprParams(r), off + |ExprParams(l)|)
    ensures Slots(ExprToks(d, Or(l, r), off)) == Numbered(d, ExprParams(l) + ExprParams(r), off)
  {
    hide Slots, Numbered, Bracket;
    BracketNumbering(d, ExprToks(d, l, off), ExprParams(l), OR,
                     ExprToks(d, r, off + |ExprParams(l)|), ExprParams(r), off);
  }

  lemma {:induction false} NotNumbering(d: Dialect, inner: Expr, off: nat)
    ensures Slots(ExprToks(d, Not(inner), off)) == Slots(ExprToks(d, inner, off))
  {
    hide Slots, Bracket, Negated;
    SlotsBracket(ExprToks(d, inner, off), AND, []);
  }

  lemma {:induction false} BracketNumbering(d: Dialect, left: seq<Tok>, lp: seq<SqlValue>, join: Tok,
                         right: seq<Tok>, rp: seq<SqlValue>, off: nat)
    requires !join.Ph?
    requires Slots(left) == Numbered(d, lp, off) && Slots(right) == Numbered(d, rp, off + |lp|)
    ensures Slots(Bracket(left, join, right)) == Numbered(d, lp + rp, off)
  {
    SlotsBracket(left, join, right);
    NumberedCat(d, lp, rp, off);
  }

  predicate IsLeaf(e: Expr) {
    !e.And? && !e.Or? && !e.Not? && !e.Case?
  }

  lemma {:induction false} LeafNumbering(d: Dialect, e: Expr, off: nat)
    requires IsLeaf(e)
    ensures Slots(ExprToks(d, e, off)) == Numbered(d, ExprParams(e), off)
  {
    match e
    case Compare(op, col, v) => BinarySlots(d, col, CmpText(op), v, off);
    case Match(op, col, v) => BinarySlots(d, col, LikeText(op), v, off);
    case InList(neg, col, vs) => InSlots(d, col, if neg then " NOT IN (" else " IN (", vs, off, ")");
    case EqAny(col, vs) => InSlots(d, col, " = ANY(ARRAY[", vs, off, "])");
    case NullTest(n, col) => SlotsNone(NullToks(n, col));
    case Between(neg, col, lo, hi) => BetweenSlots(d, neg, col, lo, hi, off);
    case AggCmp(agg, op, v) => BinarySlots(d, agg, " " + op + " ", v, off);
    case ColEq(a, b) =>
    case Raw(s) =>
    case Exists(positive, sub) =>
    case InSubquery(neg, col, sub) =>
  }

  lemma {:induction false} SlotsBracket(left: seq<Tok>, join: Tok, right: seq<Tok>)
    requires !join.Ph?
    ensures Slots(Bracket(left, join, right)) == Slots(left) + Slots(right)
    ensures Slots(Negated(left)) == Slots(left)
  {
    SlotsWrap([LP], left, [join]);
    SlotsCat([LP] + left + [join], right);
    SlotsCat([LP] + left + [join] + right, [RP]);
    SlotsWrap([NOT] + [LP], left, [RP]);
  }

  lemma {:induction false} CaseNumbering(d: Dialect, bs: seq<Branch>, els: Option<SqlValue>, off: nat)
    ensures Slots(CaseToks(d, bs, els, off)) == Numbered(d, BranchParams(bs) + ElseParams(els), off)
    decreases bs, 2
  {
    hide Slots, Numbered, BranchToks, BranchParams, ElseToks, ElseParams;
    var off' := off + |BranchParams(bs)|;
    var body, tail := BranchToks(d, bs, off), ElseToks(d, els, off');
    SlotsNone([Frag("CASE")]);
    SlotsNone([Frag(" END")]);
    BranchNumbering(d, bs, off);
    ElseSlots(d, els, off');
    SlotsCat([Frag("CASE")], body);
    SlotsCat([Frag("CASE")] + body, tail);
    SlotsCat([Frag("CASE")] + body + tail, [Frag(" END")]);
    NumberedCat(d, BranchParams(bs), ElseParams(els), off);
  }

  lemma {:induction false} ElseSlots(d: Dialect, els: Option<SqlValue>, off: nat)
    ensures Slots(ElseToks(d, els, off)) == Numbered(d, ElseParams(els), off)
  {
    SlotsCats();
  }

  lemma {:induction false} BranchNumbering(d: Dialect, bs: seq<Branch>, off: nat)
    ensures Slots(BranchToks(d, bs, off)) == Numbered(d, BranchParams(bs), off)
    decreases bs, 0
  {
    if bs != [] {
      assert bs[0].cond < bs[0];
      var ps := ExprParams(bs[0].cond);
      ExprNumbering(d, bs[0].cond, off);
      OneBranchSlots(d, bs[0], off);
      BranchNumbering(d, bs[1..], off + |ps| + 1);
      SlotsCat(OneBranch(d, bs[0], off), BranchToks(d, bs[1..], off + |ps| + 1));
      NumberedCat(d, ps + [bs[0].val], BranchParams(bs[1..]), off);
    }
  }

  lemma {:induction false} OneBranchSlots(d: Dialect, b: Branch, off: nat)
    requires Slots(ExprToks(d, b.cond, off)) == Numbered(d, ExprParams(b.cond), off)
    ensures Slots(OneBranch(d, b, off)) == Numbered(d, ExprParams(b.cond) + [b.val], off)
  {
    WhenThenSlots(d, ExprToks(d, b.cond, off), ExprParams(b.cond), b.val, off);
  }

  lemma {:induction false} WhenThenSlots(d: Dialect, cond: seq<Tok>, ps: seq<SqlValue>, v: SqlValue, off: nat)
    requires Slots(cond) == Numbered(d, ps, off)
    ensures Slots([Frag(" WHEN ")] + Opaque(cond) + [Frag(" THEN ")] + [Ph(Number(d, off + |ps|), v)])
         == Numbered(d, ps + [v], off)
  {
    hide Slots, Numbered, Opaque;
    OpaqueText(cond);
    var slot := Ph(Number(d, off + |ps|), v);
    SlotsWrap([Frag(" WHEN ")], Opaque(cond), [Frag(" THEN ")]);
    SlotsCat([Frag(" WHEN ")] + Opaque(cond) + [Frag(" THEN ")], [slot]);
    SlotAlone(slot);
    SlotsNone([Frag(" WHEN ")]);
    SlotsNone([Frag(" THEN ")]);
    NumberedCat(d, ps, [v], off);
    NumberedAlone(d, v, off + |ps|);
  }

  lemma {:induction false} NumberedAlone(d: Dialect, v: SqlValue, off: nat)
    ensures Numbered(d, [v], off) == [Ph(Number(d, off), v)]
  {
  }

  // ----- CaseExpr.render as written: one loop over the branches -----

  /** What is still to be rendered of the branches, split after the next one. */
  lemma {:induction false} NextBranch(d: Dialect, bs: seq<Branch>, k: nat, off: nat, done: seq<Tok>)
    requires k < |bs|
    ensures var ps := ExprParams(bs[k].cond);
            && BranchParams(bs[k..]) == (ps + [bs[k].val]) + BranchParams(bs[k + 1..])
            && done + OneBranch(d, bs[k], off) + BranchToks(d, bs[k + 1..], off + |ps| + 1)
               == done + BranchToks(d, bs[k..], off)
  {
    assert bs[k..][1..] == bs[k + 1..];
  }

  lemma {:induction false} OneBranchIs(d: Dialect, b: Branch, off: nat)
    ensures OneBranch(d, b, off)
         == [Frag(" WHEN ")] + Opaque(ExprToks(d, b.cond, off)) + [Frag(" THEN ")]
            + [Ph(Number(d, off + |ExprParams(b.cond)|), b.val)]
  {
    hide ExprToks, ExprParams, Opaque;
  }

  lemma {:induction false} NoBranches(d: Dialect, off: nat)
    ensures BranchToks(d, [], off) == [] && BranchParams([]) == []
  {
  }

  method RenderBranches(d: Dialect, branches: seq<Branch>, off: nat) returns (sql: seq<Tok>, params: seq<SqlValue>)
    ensures sql == BranchToks(d, branches, off) && params == BranchParams(branches)
  {
    hide *;
    sql, params := [], [];
    var offset := off;
    assert branches[0..] == branches;
    for k := 0 to |branches|
      invariant offset == off + |params|
      invariant params + BranchParams(branches[k..]) == BranchParams(branches)
      invariant sql + BranchToks(d, branches[k..], offset) == BranchToks(d, branches, off)
    {
      NextBranch(d, branches, k, offset, sql);
      OneBranchIs(d, branches[k], offset);
      var condParams := ExprParams(branches[k].cond);
      var condSql := Opaque(ExprToks(d, branches[k].cond, offset));
      offset := offset + |condParams|;
      params := params + (condParams + [branches[k].val]);
      sql := sql + ([Frag(" WHEN ")] + condSql + [Frag(" THEN ")] + [Ph(Number(d, offset), branches[k].val)]);
      offset := offset + 1;
    }
    assert branches[|branches|..] == [];
    NoBranches(d, offset);
  }

  method RenderCase(d: Dialect, branches: seq<Branch>, elseVal: Option<SqlValue>, off: nat)
    returns (sql: seq<Tok>, params: seq<SqlValue>)
    ensures sql == CaseToks(d, branches, elseVal, off)
    ensures params == BranchParams(branches) + ElseParams(elseVal)
  {
    sql, params := RenderBranches(d, branches, off);
    sql := [Frag("CASE")] + sql + ElseToks(d, elseVal, off + |params|) + [Frag(" END")];
    params := params + ElseParams(elseVal);
  }

  // ----- Offsets and dialects change only the numbers -----

  lemma {:induction false} ExprErase(d: Dialect, d': Dialect, e: Expr, off: nat, off': nat)
    ensures Erase(ExprToks(d, e, off)) == Erase(ExprToks(d', e, off'))
    decreases e, 1
  {
    hide ExprToks, ExprParams, Erase, BranchToks;
    match e
    case And(l, r) =>
      ExprErase(d, d', l, off, off');
      ExprErase(d, d', r, off + |ExprParams(l)|, off' + |ExprParams(l)|);
      PairErase(d, d', l, r, off, off');
    case Or(l, r) =>
      ExprErase(d, d', l, off, off');
      ExprErase(d, d', r, off + |ExprParams(l)|, off' + |ExprParams(l)|);
      PairErase(d, d', l, r, off, off');
    case Not(inner) =>
      ExprErase(d, d', inner, off, off');
      NotErase(d, d', inner, off, off');
    case Case(bs, els) =>
      BranchErase(d, d', bs, off, off');
      CaseErase(d, d', bs, els, off, off');
    case _ => LeafErase(d, d', e, off, off');
  }

  lemma {:induction false} LeafErase(d: Dialect, d': Dialect, e: Expr, off: nat, off': nat)
    requires IsLeaf(e)
    ensures Erase(ExprToks(d, e, off)) == Erase(ExprToks(d', e, off'))
  {
    if e.InList? || e.EqAny? {
      EraseIn(d, d', e.col, " NOT IN (", e.vals, off, off', ")");
      EraseIn(d, d', e.col, " IN (", e.vals, off, off', ")");
      EraseIn(d, d', e.col, " = ANY(ARRAY[", e.vals, off, off', "])");
    }
  }

  lemma {:induction false} EraseAnd(d: Dialect, l: Expr, r: Expr, off: nat)
    ensures Erase(ExprToks(d, And(l, r), off))
         == Bracket(Erase(ExprToks(d, l, off)), AND, Erase(ExprToks(d, r, off + |ExprParams(l)|)))
  {
    hide Erase, Bracket;
    EraseBracket(ExprToks(d, l, off), AND, ExprToks(d, r, off + |ExprParams(l)|));
  }

  lemma {:induction false} EraseOr(d: Dialect, l: Expr, r: Expr, off: nat)
    ensures Erase(ExprToks(d, Or(l, r), off))
         == Bracket(Erase(ExprToks(d, l, off)), OR, Erase(ExprToks(d, r, off + |ExprParams(l)|)))
  {
    hide Erase, Bracket;
    EraseBracket(ExprToks(d, l, off), OR, ExprToks(d, r, off + |ExprParams(l)|));
  }

  lemma {:induction false} EraseNot(d: Dialect, inner: Expr, off: nat)
    ensures Erase(ExprToks(d, Not(inner), off)) == Negated(Erase(ExprToks(d, inner, off)))
  {
    hide Erase, Negated;
    EraseBracket(ExprToks(d, inner, off), AND, []);
  }

  lemma {:induction false} EraseCaseOf(d: Dialect, bs: seq<Branch>, els: Option<SqlValue>, off: nat)
    ensures Erase(ExprToks(d, Case(bs, els), off))
         == [Frag("CASE")] + Erase(BranchToks(d, bs, off)) + ElseToks(Qmark, els, 0) + [Frag(" END")]
  {
    var tail := ElseToks(d, els, off + |BranchParams(bs)|);
    EraseCase(BranchToks(d, bs, off), tail);
    assert Erase(tail) == ElseToks(Qmark, els, 0);
  }

  lemma {:induction false} PairErase(d: Dialect, d': Dialect, l: Expr, r: Expr, off: nat, off': nat)
    requires Erase(ExprToks(d, l, off)) == Erase(ExprToks(d', l, off'))
    requires var n := |ExprParams(l)|; Erase(ExprToks(d, r, off + n)) == Erase(ExprToks(d', r, off' + n))
    ensures Erase(ExprToks(d, And(l, r), off)) == Erase(ExprToks(d', And(l, r), off'))
    ensures Erase(ExprToks(d, Or(l, r), off)) == Erase(ExprToks(d', Or(l, r), off'))
  {
    EraseAnd(d, l, r, off);
    EraseAnd(d', l, r, off');
    EraseOr(d, l, r, off);
    EraseOr(d', l, r, off');
  }

  lemma {:induction false} NotErase(d: Dialect, d': Dialect, inner: Expr, off: nat, off': nat)
    requires Erase(ExprToks(d, inner, off)) == Erase(ExprToks(d', inner, off'))
    ensures Erase(ExprToks(d, Not(inner), off)) == Erase(ExprToks(d', Not(inner), off'))
  {
    EraseNot(d, inner, off);
    EraseNot(d', inner, off');
  }

  lemma {:induction false} CaseErase(d: Dialect, d': Dialect, bs: seq<Branch>, els: Option<SqlValue>, off: nat, off': nat)
    requires Erase(BranchToks(d, bs, off)) == Erase(BranchToks(d', bs, off'))
    ensures Erase(ExprToks(d, Case(bs, els), off)) == Erase(ExprToks(d', Case(bs, els), off'))
  {
    EraseCaseOf(d, bs, els, off);
    EraseCaseOf(d', bs, els, off');
  }

  lemma {:induction false} EraseBracket(left: seq<Tok>, join: Tok, right: seq<Tok>)
    requires !join.Ph?
    ensures Erase(Bracket(left, join, right)) == Bracket(Erase(left), join, Erase(right))
    ensures Erase(Negated(left)) == Negated(Erase(left))
  {
    EraseWrap([LP], left, [join]);
    EraseWrap([], right, [RP]);
    EraseCat([LP] + left + [join], right);
    EraseCat([LP] + left + [join] + right, [RP]);
    EraseWrap([NOT] + [LP], left, [RP]);
  }

  lemma {:induction false} EraseCase(body: seq<Tok>, els: seq<Tok>)
    ensures Erase([Frag("CASE")] + body + els + [Frag(" END")])
         == [Frag("CASE")] + Erase(body) + Erase(els) + [Frag(" END")]
  {
    EraseCat([Frag("CASE")], body);
    EraseCat([Frag("CASE")] + body, els);
    EraseCat([Frag("CASE")] + body + els, [Frag(" END")]);
  }

  lemma {:induction false} BranchErase(d: Dialect, d': Dialect, bs: seq<Branch>, off: nat, off': nat)
    ensures Erase(BranchToks(d, bs, off)) == Erase(BranchToks(d', bs, off'))
    decreases bs, 0
  {
    hide *;
    if bs == [] {
      NoBranches(d, off);
      NoBranches(d', off');
    } else {
      assert bs[0].cond < bs[0];
      var n := |ExprParams(bs[0].cond)|;
      ExprErase(d, d', bs[0].cond, off, off');
      OneBranchIs(d, bs[0], off);
      OneBranchIs(d', bs[0], off');
      EraseWhen(ExprToks(d, bs[0].cond, off), Ph(Number(d, off + n), bs[0].val));
      EraseWhen(ExprToks(d', bs[0].cond, off'), Ph(Number(d', off' + n), bs[0].val));
      BranchErase(d, d', bs[1..], off + n + 1, off' + n + 1);
      BranchToksIs(d, bs, off);
      BranchToksIs(d', bs, off');
      EraseCat(OneBranch(d, bs[0], off), BranchToks(d, bs[1..], off + n + 1));
      EraseCat(OneBranch(d', bs[0], off'), BranchToks(d', bs[1..], off' + n + 1));
    }
  }

  lemma {:induction false} EraseWhen(cond: seq<Tok>, slot: Tok)
    requires slot.Ph?
    ensures Erase([Frag(" WHEN ")] + Opaque(cond) + [Frag(" THEN ")] + [slot])
         == [Frag(" WHEN ")] + Opaque(Erase(cond)) + [Frag(" THEN ")] + [Ph(0, slot.v)]
  {
    assert Erase(Opaque(cond)) == Opaque(Erase(cond));
    EraseWrap([Frag(" WHEN ")], Opaque(cond), [Frag(" THEN ")]);
    EraseCat([Frag(" WHEN ")] + Opaque(cond) + [Frag(" THEN ")], [slot]);
  }

  // ----- What stands between placeholders -----

  /** Text that neither lengthens a number in front of it nor starts another placeholder. */
  predicate Apart(t: Tok) {
    !t.Ph? && (t.Frag? ==> t.s != "" && !IsDigit(t.s[0]) && t.s[0] != '$')
  }

  /** Every placeholder is followed by such text, or by nothing. */
  ghost predicate Spaced(ts: seq<Tok>) {
    forall i, j :: 0 <= i < j < |ts| && j == i + 1 && ts[i].Ph? ==> Apart(ts[j])
  }

  lemma {:induction false} SpacedCat(a: seq<Tok>, b: seq<Tok>)
    requires Spaced(a) && Spaced(b)
    requires a != [] && b != [] && a[|a| - 1].Ph? ==> Apart(b[0])
    ensures Spaced(a + b)
  {
  }

  lemma {:induction false} ListSpaced(d: Dialect, vs: seq<SqlValue>, off: nat)
    ensures Spaced(ListToks(d, vs, off))
  {
    if |vs| > 1 {
      ListSpaced(d, vs[1..], off + 1);
      SpacedCat([Ph(Number(d, off), vs[0])], [Frag(", ")]);
      SpacedCat([Ph(Number(d, off), vs[0])] + [Frag(", ")], ListToks(d, vs[1..], off + 1));
    }
  }

  lemma {:induction false} SpacedIn(d: Dialect, col: string, op: string, vs: seq<SqlValue>, off: nat, close: string)
    requires Apart(Frag(close))
    ensures Spaced(InToks(d, col, op, vs, off, close))
  {
    ListSpaced(d, vs, off);
    var head := [Frag(col)] + [Frag(op)];
    SpacedCat(head, ListToks(d, vs, off));
    SpacedCat(head + ListToks(d, vs, off), [Frag(close)]);
  }

  lemma {:induction false} SpacedBracket(left: seq<Tok>, join: Tok, right: seq<Tok>)
    requires Spaced(left) && Spaced(right) && (join == AND || join == OR)
    ensures Spaced(Bracket(left, join, right)) && Spaced(Negated(left))
  {
    SpacedCat([LP], left);
    SpacedCat([LP] + left, [join]);
    SpacedCat([LP] + left + [join], right);
    SpacedCat([LP] + left + [join] + right, [RP]);
    SpacedCat([NOT] + [LP], left);
    SpacedCat([NOT] + [LP] + left, [RP]);
  }

  lemma {:induction false} Compounds(d: Dialect, e: Expr, off: nat)
    ensures e.And? ==> ExprToks(d, e, off) == Bracket(ExprToks(d, e.l, off), AND, ExprToks(d, e.r, off + |ExprParams(e.l)|))
    ensures e.Or? ==> ExprToks(d, e, off) == Bracket(ExprToks(d, e.l, off), OR, ExprToks(d, e.r, off + |ExprParams(e.l)|))
    ensures e.Not? ==> ExprToks(d, e, off) == Negated(ExprToks(d, e.inner, off))
    ensures e.Case? ==> ExprToks(d, e, off) == CaseToks(d, e.branches, e.elseVal, off)
    ensures Spaced([])
  {
  }

  lemma {:induction false} ExprSpaced(d: Dialect, e: Expr, off: nat)
    ensures Spaced(ExprToks(d, e, off))
    decreases e, 1
  {
    hide ExprToks, ExprParams, Spaced, Bracket, Negated, CaseToks;
    Compounds(d, e, off);
    match e
    case And(l, r) =>
      ExprSpaced(d, l, off);
      ExprSpaced(d, r, off + |ExprParams(l)|);
      SpacedBracket(ExprToks(d, l, off), AND, ExprToks(d, r, off + |ExprParams(l)|));
    case Or(l, r) =>
      ExprSpaced(d, l, off);
      ExprSpaced(d, r, off + |ExprParams(l)|);
      SpacedBracket(ExprToks(d, l, off), OR, ExprToks(d, r, off + |ExprParams(l)|));
    case Not(inner) =>
      ExprSpaced(d, inner, off);
      SpacedBracket(ExprToks(d, inner, off), AND, []);
    case Case(bs, els) => CaseSpaced(d, bs, els, off);
    case _ => LeafSpaced(d, e, off);
  }

  lemma {:induction false} LeafSpaced(d: Dialect, e: Expr, off: nat)
    requires IsLeaf(e)
    ensures Spaced(ExprToks(d, e, off))
  {
    if e.InList? || e.EqAny? {
      SpacedIn(d, e.col, " NOT IN (", e.vals, off, ")");
      SpacedIn(d, e.col, " IN (", e.vals, off, ")");
      SpacedIn(d, e.col, " = ANY(ARRAY[", e.vals, off, "])");
    }
  }

  lemma {:induction false} CaseSpaced(d: Dialect, bs: seq<Branch>, els: Option<SqlValue>, off: nat)
    ensures Spaced(CaseToks(d, bs, els, off))
    decreases bs, 3
  {
    var off' := off + |BranchParams(bs)|;
    BranchSpaced(d, bs, off);
    SpacedCat([Frag("CASE")], BranchToks(d, bs, off));
    SpacedCat([Frag("CASE")] + BranchToks(d, bs, off), ElseToks(d, els, off'));
    SpacedCat([Frag("CASE")] + BranchToks(d, bs, off) + ElseToks(d, els, off'), [Frag(" END")]);
  }

  lemma {:induction false} BranchSpaced(d: Dialect, bs: seq<Branch>, off: nat)
    ensures Spaced(BranchToks(d, bs, off))
    ensures BranchToks(d, bs, off) != [] ==> Apart(BranchToks(d, bs, off)[0])
    decreases bs, 0
  {
    hide *;
    if bs == [] {
      NoBranches(d, off);
      NothingSpaced();
    } else {
      assert bs[0].cond < bs[0];
      var off' := off + |ExprParams(bs[0].cond)|;
      ExprSpaced(d, bs[0].cond, off);
      WhenSpaced(ExprToks(d, bs[0].cond, off), Ph(Number(d, off'), bs[0].val));
      OneBranchIs(d, bs[0], off);
      BranchSpaced(d, bs[1..], off' + 1);
      BranchToksIs(d, bs, off);
      SpacedCat(OneBranch(d, bs[0], off), BranchToks(d, bs[1..], off' + 1));
    }
  }

  lemma {:induction false} NothingSpaced()
    ensures Spaced([])
  {
  }

  lemma {:induction false} BranchToksIs(d: Dialect, bs: seq<Branch>, off: nat)
    requires bs != []
    ensures BranchToks(d, bs, off)
         == OneBranch(d, bs[0], off) + BranchToks(d, bs[1..], off + |ExprParams(bs[0].cond)| + 1)
  {
    hide ExprParams, OneBranch;
  }

  lemma {:induction false} WhenSpaced(cond: seq<Tok>, slot: Tok)
    requires Spaced(cond)
    ensures Spaced([Frag(" WHEN ")] + Opaque(cond) + [Frag(" THEN ")] + [slot])
    ensures Apart(([Frag(" WHEN ")] + Opaque(cond) + [Frag(" THEN ")] + [slot])[0])
  {
    assert forall i :: 0 <= i < |cond| && Apart(cond[i]) ==> Apart(Opaque(cond)[i]);
    SpacedCat([Frag(" WHEN ")], Opaque(cond));
    SpacedCat([Frag(" WHEN ")] + Opaque(cond), [Frag(" THEN ")]);
    SpacedCat([Frag(" WHEN ")] + Opaque(cond) + [Frag(" THEN ")], [slot]);
  }
}
