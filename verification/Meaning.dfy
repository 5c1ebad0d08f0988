/** Rendered predicates, read back with SQL precedence, mean what was built. */
module Meaning {
  import opened Values
  import opened Tokens
  import opened Leaves
  import opened Search
  import C = Conditions

  // ----- What a condition means -----

  /** A group means the OR of its maximal AND-runs; every other condition is atomic. */
  function CondEval(c: C.Condition, row: Row): Tri
    decreases c, 1
  {
    match c
    case Group(items) => if items == [] then Unknown else OrOfRuns(ItemVals(items, row))
    case _ => row(Erase(C.CondToks(Postgres, c, 1)))
  }

  function ItemVals(items: seq<C.Item>, row: Row): (js: seq<Joined>)
    ensures |js| == |items|
    ensures forall i :: 0 <= i < |items| ==> js[i].op == items[i].op
    decreases items, 0
  {
    if items == [] then []
    else
      assert items[0].cond < items[0];
      [Joined(items[0].op, CondEval(items[0].cond, row))] + ItemVals(items[1..], row)
  }

  /** No group that a reader has to look into is empty. */
  predicate Solid(c: C.Condition)
    decreases c, 1
  {
    c.Group? ==> c.items != [] && SolidItems(c.items)
  }

  predicate SolidItems(items: seq<C.Item>)
    decreases items, 0
  {
    items != [] ==>
      assert items[0].cond < items[0];
      Solid(items[0].cond) && SolidItems(items[1..])
  }

  // ----- A rendering does not depend on its offset, except in its numbers -----

  lemma {:induction false} EraseInline(a: seq<Tok>, b: seq<Tok>)
    requires Erase(a) == Erase(b)
    ensures Inline(a) == Inline(b)
  {
    EraseKeepsInline(a);
    EraseKeepsInline(b);
  }

  lemma {:induction false} EraseKeepsInline(a: seq<Tok>)
    ensures Inline(Erase(a)) == Inline(a)
  {
    hide Erase, InlineTok;
    EraseIs(a);
    if a != [] {
      EraseKeepsInline(a[1..]);
    }
  }

  lemma {:induction false} EraseIs(a: seq<Tok>)
    ensures |Erase(a)| == |a|
    ensures a != [] ==> InlineTok(Erase(a)[0]) == InlineTok(a[0]) && Erase(a)[1..] == Erase(a[1..])
  {
    hide ToSqlLiteral, Spell;
  }

  // ----- Reading conditions back -----

  lemma {:induction false} LeafAtoms(c: C.Condition, off: nat)
    requires !c.Group?
    ensures C.CondToks(Postgres, c, off) != []
    ensures forall t :: t in C.CondToks(Postgres, c, off) ==> AtomTok(t)
  {
    match c
    case InList(neg, col, vs) => ListAtoms(vs, off);
    case EqAny(col, vs) => ListAtoms(vs, off);
    case _ =>
  }

  lemma {:induction false} ListAtoms(vs: seq<SqlValue>, off: nat)
    ensures forall t :: t in ListToks(Postgres, vs, off) ==> AtomTok(t)
  {
    if |vs| > 1 {
      ListAtoms(vs[1..], off + 1);
    }
  }

  function CondVal(c: C.Condition, row: Row): Option<Tri> {
    if Solid(c) then Some(CondEval(c, row)) else None
  }

  function Entries(items: seq<C.Item>, off: nat, row: Row): seq<Entry> {
    if items == [] then []
    else
      [Entry(items[0].op, C.CondToks(Postgres, items[0].cond, off), CondVal(items[0].cond, row))]
      + Entries(items[1..], off + |C.CondParams(items[0].cond)|, row)
  }

  lemma {:induction false} EntriesSpell(items: seq<C.Item>, off: nat, row: Row)
    ensures Tail(Entries(items, off, row)) == C.TailToks(Postgres, items, off)
    ensures List(Entries(items, off, row)) == C.ItemsToks(Postgres, items, off)
  {
    hide C.CondToks, C.CondParams, CondVal;
    if items != [] {
      var off' := off + |C.CondParams(items[0].cond)|;
      EntriesSpell(items[1..], off', row);
      assert Entries(items, off, row)[1..] == Entries(items[1..], off', row);
    }
  }

  lemma {:induction false} EntriesMean(items: seq<C.Item>, off: nat, row: Row)
    ensures Joins(Entries(items, off, row)) == ItemVals(items, row) || !SolidItems(items)
    ensures AllSome(Entries(items, off, row)) <==> SolidItems(items)
  {
    hide C.CondToks, C.CondParams, CondEval, Joins, AllSome;
    var es := Entries(items, off, row);
    if items == [] {
      NoEntries();
    } else {
      var off' := off + |C.CondParams(items[0].cond)|;
      EntriesMean(items[1..], off', row);
      assert es[1..] == Entries(items[1..], off', row);
      FirstEntry(es);
    }
  }

  lemma {:induction false} NoEntries()
    ensures Joins([]) == [] && AllSome([])
  {
  }

  lemma {:induction false} FirstEntry(es: seq<Entry>)
    requires es != []
    ensures AllSome(es) <==> es[0].val.Some? && AllSome(es[1..])
    ensures es[0].val.Some? ==> Joins(es) == [Joined(es[0].op, es[0].val.value)] + Joins(es[1..])
  {
    assert forall i :: 0 <= i < |es| - 1 ==> es[1..][i] == es[i + 1];
  }

  /** A condition is read back as one factor with its own meaning, or not at all if a group in it is empty. */
  lemma {:induction false} ReadCond(c: C.Condition, off: nat, row: Row)
    ensures Reads(C.CondToks(Postgres, c, off), CondVal(c, row), row)
    decreases c, 1
  {
    hide C.CondToks, C.ItemsToks, Entries, Reads, AllRead, SolidItems, OrOfRuns, ItemVals, Joins, AllSome;
    if c.Group? {
      C.GroupIs(Postgres, c.items, off);
      GroupVal(c.items, off, row);
      ReadItems(c.items, off, row);
      EntriesSpell(c.items, off, row);
      EntriesMean(c.items, off, row);
      ReadGroup(Entries(c.items, off, row), row);
    } else {
      LeafAtoms(c, off);
      ReadsAtom(C.CondToks(Postgres, c, off), row);
      C.CondErase(Postgres, Postgres, c, off, 1);
    }
  }

  /** A group has the value of its list, if the list can be read. */
  lemma {:induction false} GroupVal(items: seq<C.Item>, off: nat, row: Row)
    ensures CondVal(C.Group(items), row) == ListVal(Entries(items, off, row))
  {
    hide C.CondToks, C.CondParams, CondEval, Joins, AllSome;
    EntriesMean(items, off, row);
    if items != [] {
      GroupEval(items, row);
    }
    EntriesEmpty(items, off, row);
    hide Entries, OrOfRuns, ItemVals, SolidItems;
  }

  lemma {:induction false} GroupEval(items: seq<C.Item>, row: Row)
    requires items != []
    ensures CondEval(C.Group(items), row) == OrOfRuns(ItemVals(items, row))
  {
    hide OrOfRuns, ItemVals;
  }

  lemma {:induction false} EntriesEmpty(items: seq<C.Item>, off: nat, row: Row)
    ensures Entries(items, off, row) == [] <==> items == []
  {
  }

  lemma {:induction false} ReadItems(items: seq<C.Item>, off: nat, row: Row)
    ensures AllRead(Entries(items, off, row), row)
    decreases items, 0
  {
    hide C.CondToks, C.CondParams, CondVal, Reads;
    if items != [] {
      assert items[0].cond < items[0];
      ReadCond(items[0].cond, off, row);
      ReadItems(items[1..], off + |C.CondParams(items[0].cond)|, row);
    }
  }

  /** A rendered WHERE list is read as the OR of its maximal AND-runs, and is unreadable exactly if a group in it is empty. */
  lemma {:induction false} WhereMeans(items: seq<C.Item>, off: nat, row: Row)
    requires items != []
    ensures var t := Read(C.ItemsToks(Postgres, items, off));
            && (t.Some? <==> SolidItems(items))
            && (t.Some? ==> Eval(t.value, row) == OrOfRuns(ItemVals(items, row)))
  {
    ReadItems(items, off, row);
    EntriesSpell(items, off, row);
    EntriesMean(items, off, row);
    ReadList(Entries(items, off, row), [], row);
    assert C.ItemsToks(Postgres, items, off) + [] == C.ItemsToks(Postgres, items, off);
  }
}
