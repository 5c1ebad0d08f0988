/** The leaf predicates that the condition language and the expression language share. */
module Leaves {
  import opened Text
  import opened Values
  import opened Tokens

  datatype JoinOp = JoinAnd | JoinOr

  datatype CmpOp = Eq | Ne | Gt | Gte | Lt | Lte

  datatype LikeOp = Like | NotLike | ILike

  function JoinTok(op: JoinOp): Tok {
    if op.JoinAnd? then AND else OR
  }

  function CmpText(op: CmpOp): string {
    match op
    case Eq => " = "
    case Ne => " != "
    case Gt => " > "
    case Gte => " >= "
    case Lt => " < "
    case Lte => " <= "
  }

  function LikeText(op: LikeOp): string {
    match op
    case Like => " LIKE "
    case NotLike => " NOT LIKE "
    case ILike => " ILIKE "
  }

  function BinaryToks(d: Dialect, col: string, op: string, v: SqlValue, off: nat): seq<Tok> {
    [Frag(col)] + [Frag(op)] + [Ph(Number(d, off), v)]
  }

  function BetweenToks(d: Dialect, neg: bool, col: string, lo: SqlValue, hi: SqlValue, off: nat): seq<Tok> {
    [Frag(col)] + [Frag(if neg then " NOT BETWEEN " else " BETWEEN ")] + [Ph(Number(d, off), lo)]
    + [Frag(" AND ")] + [Ph(Number(d, off + 1), hi)]
  }

  function NullToks(isNull: bool, col: string): seq<Tok> {
    [Frag(col)] + [Frag(if isNull then " IS NULL" else " IS NOT NULL")]
  }

  /** Placeholders separated by commas. */
  function ListToks(d: Dialect, vals: seq<SqlValue>, off: nat): seq<Tok> {
    if vals == [] then []
    else if |vals| == 1 then [Ph(Number(d, off), vals[0])]
    else [Ph(Number(d, off), vals[0])] + [Frag(", ")] + ListToks(d, vals[1..], off + 1)
  }

  function InToks(d: Dialect, col: string, op: string, vals: seq<SqlValue>, off: nat, close: string): seq<Tok> {
    [Frag(col)] + [Frag(op)] + ListToks(d, vals, off) + [Frag(close)]
  }

  /** Connectives inside an atomic fragment are plain text to the reader of the predicate around it. */
  function Opaque(ts: seq<Tok>): seq<Tok> {
    seq(|ts|, i requires 0 <= i < |ts| => if ts[i].Ph? then ts[i] else Frag(Spell(ts[i])))
  }

  lemma {:induction false} OpaqueText(ts: seq<Tok>)
    ensures Slots(Opaque(ts)) == Slots(ts)
    ensures Inline(Opaque(ts)) == Inline(ts)
    ensures Flatten(Opaque(ts)) == Flatten(ts)
  {
    if ts != [] {
      OpaqueText(ts[1..]);
      assert Opaque(ts)[1..] == Opaque(ts[1..]);
    }
  }

  lemma {:induction false} OpaqueClean(ts: seq<Tok>)
    requires Clean(ts)
    ensures Clean(Opaque(ts))
  {
    forall i | 0 <= i < |ts|
      ensures Opaque(ts)[i].Frag? ==> Quiet(Opaque(ts)[i].s)
      ensures Opens(Opaque(ts)[i]) ==> Opens(ts[i])
      ensures SafeStart(ts[i]) ==> SafeStart(Opaque(ts)[i])
    {
      if !ts[i].Frag? && !ts[i].Ph? {
        KeywordQuiet(ts[i]);
      }
    }
  }

  // ----- Numbering of the leaves -----

  lemma {:induction false} BinarySlots(d: Dialect, col: string, op: string, v: SqlValue, off: nat)
    ensures Slots(BinaryToks(d, col, op, v, off)) == Numbered(d, [v], off)
  {
    SlotsCats();
  }

  lemma {:induction false} BetweenSlots(d: Dialect, neg: bool, col: string, lo: SqlValue, hi: SqlValue, off: nat)
    ensures Slots(BetweenToks(d, neg, col, lo, hi, off)) == Numbered(d, [lo, hi], off)
  {
    hide Slots;
    var head := [Frag(col)] + [Frag(if neg then " NOT BETWEEN " else " BETWEEN ")];
    var first, second := Ph(Number(d, off), lo), Ph(Number(d, off + 1), hi);
    SlotsNone(head);
    SlotsNone([Frag(" AND ")]);
    SlotAlone(first);
    SlotAlone(second);
    SlotsCat(head, [first]);
    SlotsCat(head + [first], [Frag(" AND ")]);
    SlotsCat(head + [first] + [Frag(" AND ")], [second]);
  }

  lemma {:induction false} ListSlots(d: Dialect, vals: seq<SqlValue>, off: nat)
    ensures Slots(ListToks(d, vals, off)) == Numbered(d, vals, off)
  {
    if |vals| > 1 {
      ListSlots(d, vals[1..], off + 1);
      SlotsCats();
      assert vals == [vals[0]] + vals[1..];
      NumberedCat(d, [vals[0]], vals[1..], off);
    }
  }

  lemma {:induction false} InSlots(d: Dialect, col: string, op: string, vals: seq<SqlValue>, off: nat, close: string)
    ensures Slots(InToks(d, col, op, vals, off, close)) == Numbered(d, vals, off)
  {
    ListSlots(d, vals, off);
    SlotsCats();
  }

  /** Text around a rendering adds no placeholder. */
  lemma {:induction false} SlotsWrap(a: seq<Tok>, mid: seq<Tok>, b: seq<Tok>)
    requires forall t :: t in a || t in b ==> !t.Ph?
    ensures Slots(a + mid + b) == Slots(mid)
  {
    SlotsNone(a);
    SlotsNone(b);
    SlotsCat(a + mid, b);
    SlotsCat(a, mid);
  }

  lemma {:induction false} SlotsNone(ts: seq<Tok>)
    requires forall t :: t in ts ==> !t.Ph?
    ensures Slots(ts) == []
  {
    if ts != [] {
      SlotsNone(ts[1..]);
    }
  }

  // ----- Cleanliness of the leaves -----

  /** Text that may follow a placeholder or a `$`, and leaves neither open. */
  ghost predicate Separator(s: string) {
    s != "" && !IsDigit(s[0]) && Quiet(s) && !EndsWithDollar(s)
  }

  lemma {:induction false} BinaryClean(d: Dialect, col: string, op: string, v: SqlValue, off: nat)
    requires Quiet(col) && Separator(op)
    ensures Clean(BinaryToks(d, col, op, v, off))
  {
  }

  lemma {:induction false} BetweenClean(d: Dialect, neg: bool, col: string, lo: SqlValue, hi: SqlValue, off: nat)
    requires Quiet(col)
    ensures Clean(BetweenToks(d, neg, col, lo, hi, off))
  {
    var left := BinaryToks(d, col, if neg then " NOT BETWEEN " else " BETWEEN ", lo, off);
    BinaryClean(d, col, if neg then " NOT BETWEEN " else " BETWEEN ", lo, off);
    CleanCat(left, [Frag(" AND ")]);
    CleanCat(left + [Frag(" AND ")], [Ph(Number(d, off + 1), hi)]);
  }

  lemma {:induction false} ListClean(d: Dialect, vals: seq<SqlValue>, off: nat)
    ensures Clean(ListToks(d, vals, off))
  {
    if |vals| > 1 {
      ListClean(d, vals[1..], off + 1);
    }
  }

  lemma {:induction false} InClean(d: Dialect, col: string, op: string, vals: seq<SqlValue>, off: nat, close: string)
    requires Quiet(col) && Separator(op) && Separator(close)
    ensures Clean(InToks(d, col, op, vals, off, close))
  {
    ListClean(d, vals, off);
    var head := [Frag(col)] + [Frag(op)];
    CleanCat(head, ListToks(d, vals, off));
    CleanCat(head + ListToks(d, vals, off), [Frag(close)]);
  }

  // ----- Erasing the numbers -----

  lemma {:induction false} EraseCat(a: seq<Tok>, b: seq<Tok>)
    ensures Erase(a + b) == Erase(a) + Erase(b)
  {
  }

  lemma {:induction false} EraseList(d: Dialect, d': Dialect, vals: seq<SqlValue>, off: nat, off': nat)
    ensures Erase(ListToks(d, vals, off)) == Erase(ListToks(d', vals, off'))
  {
    if |vals| > 1 {
      EraseList(d, d', vals[1..], off + 1, off' + 1);
      EraseCat([Ph(Number(d, off), vals[0])] + [Frag(", ")], ListToks(d, vals[1..], off + 1));
      EraseCat([Ph(Number(d', off'), vals[0])] + [Frag(", ")], ListToks(d', vals[1..], off' + 1));
    }
  }

  lemma {:induction false} EraseIn(d: Dialect, d': Dialect, col: string, op: string, vs: seq<SqlValue>,
                                   off: nat, off': nat, close: string)
    ensures Erase(InToks(d, col, op, vs, off, close)) == Erase(InToks(d', col, op, vs, off', close))
  {
    EraseList(d, d', vs, off, off');
    EraseWrap([Frag(col)] + [Frag(op)], ListToks(d, vs, off), [Frag(close)]);
    EraseWrap([Frag(col)] + [Frag(op)], ListToks(d', vs, off'), [Frag(close)]);
  }

  lemma {:induction false} EraseWrap(a: seq<Tok>, mid: seq<Tok>, b: seq<Tok>)
    requires forall t :: t in a || t in b ==> !t.Ph?
    ensures Erase(a + mid + b) == a + Erase(mid) + b
  {
  }
}
