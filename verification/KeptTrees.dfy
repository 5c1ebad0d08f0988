/** Nested groups turned into expressions: exactly which trees keep their meaning. */
module KeptTrees {
  import opened Tokens
  import opened Leaves
  import opened Search
  import opened Meaning
  import opened ExprMeaning
  import opened BridgeBack
  import C = Conditions

  /** Every group has an entry, and every other condition keeps its own meaning. */
  predicate Grown(c: C.Condition)
    decreases c, 1
  {
    if c.Group? then c.items != [] && GrownItems(c.items)
    else (c.InList? ==> c.vals != []) && (c.Subquery? ==> PatternQuotes(c) == 0)
  }

  predicate GrownItems(items: seq<C.Item>)
    decreases items, 0
  {
    items != [] ==>
      assert items[0].cond < items[0];
      Grown(items[0].cond) && GrownItems(items[1..])
  }

  /** The texts, values inlined, of the conditions at the leaves. */
  function Texts(c: C.Condition): set<string>
    decreases c, 1
  {
    if c.Group? then ItemsTexts(c.items) else {Inline(C.CondToks(Postgres, c, 1))}
  }

  function ItemsTexts(items: seq<C.Item>): set<string>
    decreases items, 0
  {
    if items == [] then {}
    else
      assert items[0].cond < items[0];
      Texts(items[0].cond) + ItemsTexts(items[1..])
  }

  /** No two leaves have the same text. */
  predicate Distinct(c: C.Condition)
    decreases c, 1
  {
    c.Group? ==> DistinctItems(c.items)
  }

  predicate DistinctItems(items: seq<C.Item>)
    decreases items, 0
  {
    items != [] ==>
      assert items[0].cond < items[0];
      && Distinct(items[0].cond) && DistinctItems(items[1..])
      && Texts(items[0].cond) !! ItemsTexts(items[1..])
  }

  lemma {:induction false} EntryOf(items: seq<C.Item>, i: nat)
    requires i < |items|
    ensures Texts(items[i].cond) <= ItemsTexts(items)
    ensures GrownItems(items) ==> Grown(items[i].cond)
    ensures DistinctItems(items) ==> Distinct(items[i].cond)
  {
    hide Texts, Grown, Distinct;
    if i > 0 {
      EntryOf(items[1..], i - 1);
      assert items[1..][i - 1] == items[i];
    }
  }

  // ----- Values of a group, entry by entry -----

  /** Both languages' values of the entry `i`. */
  lemma {:induction false} ValsAt(items: seq<C.Item>, i: nat, row: Row)
    requires i < |items|
    ensures ItemVals(items, row)[i] == Joined(items[i].op, CondEval(items[i].cond, row))
    ensures PairVals(Pairs(items), row)[i] == Joined(items[i].op, ExprEval(CondToExpr(items[i].cond), row))
  {
    hide CondEval, ExprEval, CondToExpr;
    PairsAt(items, i);
    ItemValAt(items, i, row);
  }

  lemma {:induction false} ItemValAt(items: seq<C.Item>, i: nat, row: Row)
    requires i < |items|
    ensures ItemVals(items, row)[i] == Joined(items[i].op, CondEval(items[i].cond, row))
  {
    hide CondEval;
    ItemValsIs(items, row);
    if i > 0 {
      ItemValAt(items[1..], i - 1, row);
    }
  }

  /** The row that decides every atomic predicate by its text. */
  function ByText(truth: string -> Tri): Row {
    ts => truth(Inline(ts))
  }

  lemma {:induction false} ByTextIs(truth: string -> Tri)
    ensures Textual(ByText(truth))
  {
  }

  /** Both languages' values of a condition are `a` and `b`. */
  predicate Means(c: C.Condition, row: Row, a: Tri, b: Tri) {
    ExprEval(CondToExpr(c), row) == a && CondEval(c, row) == b
  }

  lemma {:induction false} GroupMeans(items: seq<C.Item>, row: Row, xs: seq<Tri>, ys: seq<Tri>)
    requires items != [] && |xs| == |ys| == |items|
    requires forall i :: 0 <= i < |items| ==> Means(items[i].cond, row, xs[i], ys[i])
    ensures var ops := ItemOps(items);
            Means(C.Group(items), row, LeftFold(xs[0], Zip(ops, xs)[1..]), OrOfRuns(Zip(ops, ys)))
  {
    hide CondEval, ExprEval, CondToExpr, LeftFold, OrOfRuns, Pairs, ItemVals;
    var ops := ItemOps(items);
    forall i | 0 <= i < |items|
      ensures PairVals(Pairs(items), row)[i] == Zip(ops, xs)[i]
      ensures ItemVals(items, row)[i] == Zip(ops, ys)[i]
    {
      ValsAt(items, i, row);
      assert Means(items[i].cond, row, xs[i], ys[i]);
    }
    assert PairVals(Pairs(items), row) == Zip(ops, xs);
    assert ItemVals(items, row) == Zip(ops, ys);
    FoldedGroup(items, row);
  }

  // ----- Rows -----

  lemma {:induction false} LeafMeans(c: C.Condition, truth: string -> Tri)
    requires !c.Group? && Grown(c)
    ensures var v := truth(Inline(C.CondToks(Postgres, c, 1))); Means(c, ByText(truth), v, v)
  {
    hide Inline, Erase, C.CondToks, CondToExpr, ExprEval, Textual;
    ByTextIs(truth);
    LeafKept(c, ByText(truth));
    EraseKeepsInline(C.CondToks(Postgres, c, 1));
  }

  /** The values of a tree depend only on the texts of its leaves. */
  lemma {:induction false} Local(c: C.Condition, truth: string -> Tri, truth': string -> Tri)
    requires Grown(c) && forall t :: t in Texts(c) ==> truth(t) == truth'(t)
    ensures Means(c, ByText(truth'), ExprEval(CondToExpr(c), ByText(truth)), CondEval(c, ByText(truth)))
    decreases c
  {
    hide CondEval, ExprEval, CondToExpr, Inline, C.CondToks, ByText;
    if c.Group? {
      var row, row' := ByText(truth), ByText(truth');
      var xs := seq(|c.items|, i requires 0 <= i < |c.items| => ExprEval(CondToExpr(c.items[i].cond), row));
      var ys := seq(|c.items|, i requires 0 <= i < |c.items| => CondEval(c.items[i].cond, row));
      forall i | 0 <= i < |c.items|
        ensures Means(c.items[i].cond, row, xs[i], ys[i]) && Means(c.items[i].cond, row', xs[i], ys[i])
      {
        EntryOf(c.items, i);
        assert c.items[i].cond < c.items[i];
        Local(c.items[i].cond, truth, truth');
      }
      GroupMeans(c.items, row, xs, ys);
      GroupMeans(c.items, row', xs, ys);
    } else {
      LeafMeans(c, truth);
      LeafMeans(c, truth');
    }
  }

  /** A tree whose leaves all have one known value has that value, in both languages. */
  lemma {:induction false} Constant(c: C.Condition, truth: string -> Tri, v: Tri)
    requires Grown(c) && !v.Unknown? && forall t :: t in Texts(c) ==> truth(t) == v
    ensures Means(c, ByText(truth), v, v)
    decreases c
  {
    hide CondEval, ExprEval, CondToExpr, Inline, C.CondToks, Zip, LeftFold, OrOfRuns, ByText;
    if c.Group? {
      var row := ByText(truth);
      var vals := seq(|c.items|, _ => v);
      forall i | 0 <= i < |c.items|
        ensures Means(c.items[i].cond, row, vals[i], vals[i])
      {
        EntryOf(c.items, i);
        assert c.items[i].cond < c.items[i];
        Constant(c.items[i].cond, truth, v);
      }
      GroupMeans(c.items, row, vals, vals);
      AllAlike(ItemOps(c.items), v);
    } else {
      LeafMeans(c, truth);
    }
  }

  lemma {:induction false} AllAlike(ops: seq<JoinOp>, v: Tri)
    requires ops != [] && !v.Unknown?
    ensures var js := Zip(ops, seq(|ops|, _ => v)); LeftFold(v, js[1..]) == v && OrOfRuns(js) == v
  {
    var js := Zip(ops, seq(|ops|, _ => v));
    if v.True? {
      AllTrue(js[1..]);
      AllTrueRuns(js);
    } else {
      FoldFalse(js[1..]);
      EveryRunFalse(js);
    }
  }

  /** The value given to the entry in which a text occurs. */
  function Pick(items: seq<C.Item>, vals: seq<Tri>, text: string): Tri
    requires |items| == |vals|
  {
    if items == [] then Unknown
    else if text in Texts(items[0].cond) then vals[0]
    else Pick(items[1..], vals[1..], text)
  }

  lemma {:induction false} PickAt(items: seq<C.Item>, vals: seq<Tri>, i: nat, text: string)
    requires |items| == |vals| && DistinctItems(items) && i < |items| && text in Texts(items[i].cond)
    ensures Pick(items, vals, text) == vals[i]
    ensures forall j :: 0 <= j < |items| && j != i ==> text !in Texts(items[j].cond)
  {
    hide Texts, Distinct;
    if i > 0 {
      EntryOf(items[1..], i - 1);
      PickAt(items[1..], vals[1..], i - 1, text);
      assert forall j :: 0 < j < |items| ==> items[j] == items[1..][j - 1];
    } else {
      forall j | 0 < j < |items|
        ensures text !in Texts(items[j].cond)
      {
        EntryOf(items[1..], j - 1);
      }
    }
  }

  // ----- One group -----

  /** Values that leave the left fold to the entry `j`. */
  function Neutral(ops: seq<JoinOp>, j: nat): (vals: seq<Tri>)
    requires j < |ops|
    ensures |vals| == |ops|
  {
    seq(|ops|, k requires 0 <= k < |ops| => if ops[if k < j then j else k].JoinAnd? then True else False)
  }

  lemma {:induction false} FoldNeutral(acc: Tri, js: seq<Joined>)
    requires forall k :: 0 <= k < |js| ==> js[k].val == if js[k].op.JoinAnd? then True else False
    ensures LeftFold(acc, js) == acc
    decreases js
  {
    if js != [] {
      TriLaws(acc, acc, acc);
      FoldNeutral(acc, js[1..]);
    }
  }

  lemma {:induction false} FoldThrough(ops: seq<JoinOp>, j: nat, x: Tri)
    requires j < |ops|
    ensures var vals := Neutral(ops, j)[j := x]; LeftFold(vals[0], Zip(ops, vals)[1..]) == x
  {
    hide LeftFold;
    var vals := Neutral(ops, j)[j := x];
    var js := Zip(ops, vals);
    if j == 0 {
      FoldNeutral(x, js[1..]);
    } else {
      var before := if ops[j].JoinAnd? then True else False;
      assert js[1..] == js[1..j] + ([js[j]] + js[j + 1..]);
      LeftFoldCat(before, js[1..j], [js[j]] + js[j + 1..]);
      LeftFoldCat(before, [js[j]], js[j + 1..]);
      if ops[j].JoinAnd? {
        AllTrue(js[1..j]);
      } else {
        FoldFalse(js[1..j]);
      }
      FoldEntry(before, js[j]);
      FoldNeutral(x, js[j + 1..]);
    }
  }

  lemma {:induction false} FoldEntry(acc: Tri, j: Joined)
    requires acc == if j.op.JoinAnd? then True else False
    ensures LeftFold(acc, [j]) == j.val
  {
    assert [j][1..] == [];
  }

  /** A group with an AND after an OR changes its meaning. */
  lemma {:induction false} GroupBreaks(items: seq<C.Item>) returns (truth: string -> Tri)
    requires items != [] && GrownItems(items) && DistinctItems(items) && !AndsFirst(ItemOps(items)[1..])
    ensures ExprEval(CondToExpr(C.Group(items)), ByText(truth)) != CondEval(C.Group(items), ByText(truth))
  {
    hide CondEval, ExprEval, CondToExpr, Texts, Grown, Distinct, LeftFold, OrOfRuns, ByText;
    var ops := ItemOps(items);
    var i, j :| 0 <= i < j < |ops[1..]| && ops[1..][i].JoinOr? && !ops[1..][j].JoinOr?;
    var vals := FoldDisagrees(ops, i + 1, j + 1);
    truth := text => Pick(items, vals, text);
    var row := ByText(truth);
    forall k | 0 <= k < |items|
      ensures Means(items[k].cond, row, vals[k], vals[k])
    {
      EntryOf(items, k);
      forall t | t in Texts(items[k].cond)
        ensures truth(t) == vals[k]
      {
        PickAt(items, vals, k, t);
      }
      Constant(items[k].cond, truth, vals[k]);
    }
    GroupMeans(items, row, vals, vals);
  }

  /** A group with its ANDs first passes on the change of meaning of its entry `j`. */
  lemma {:induction false} EntryBreaks(items: seq<C.Item>, j: nat, truth: string -> Tri) returns (truth': string -> Tri)
    requires j < |items| && GrownItems(items) && DistinctItems(items) && AndsFirst(ItemOps(items)[1..])
    requires ExprEval(CondToExpr(items[j].cond), ByText(truth)) != CondEval(items[j].cond, ByText(truth))
    ensures ExprEval(CondToExpr(C.Group(items)), ByText(truth')) != CondEval(C.Group(items), ByText(truth'))
  {
    hide CondEval, ExprEval, CondToExpr, Texts, Grown, Distinct, LeftFold, OrOfRuns, ByText;
    var ops := ItemOps(items);
    var vals := Neutral(ops, j);
    var a, b := ExprEval(CondToExpr(items[j].cond), ByText(truth)), CondEval(items[j].cond, ByText(truth));
    var xs, ys := vals[j := a], vals[j := b];
    truth' := text => if text in Texts(items[j].cond) then truth(text) else Pick(items, vals, text);
    var row' := ByText(truth');
    forall k | 0 <= k < |items|
      ensures Means(items[k].cond, row', xs[k], ys[k])
    {
      EntryOf(items, k);
      if k == j {
        Local(items[j].cond, truth, truth');
      } else {
        forall t | t in Texts(items[k].cond)
          ensures truth'(t) == vals[k]
        {
          PickAt(items, vals, k, t);
        }
        Constant(items[k].cond, truth', vals[k]);
      }
    }
    GroupMeans(items, row', xs, ys);
    FoldThrough(ops, j, a);
    FoldThrough(ops, j, b);
    assert Ops(Zip(ops, ys)) == ops;
    FoldAgrees(Zip(ops, ys));
  }

  // ----- Trees -----

  lemma {:induction false} BrokenEntry(items: seq<C.Item>) returns (j: nat)
    requires GrownItems(items) && !KeptItems(items)
    ensures j < |items| && !Kept(items[j].cond)
  {
    hide Kept, Grown;
    if !Kept(items[0].cond) {
      j := 0;
    } else {
      var k := BrokenEntry(items[1..]);
      j := k + 1;
    }
  }

  lemma {:induction false} TreeBreaks(c: C.Condition) returns (truth: string -> Tri)
    requires Grown(c) && Distinct(c) && !Kept(c)
    ensures ExprEval(CondToExpr(c), ByText(truth)) != CondEval(c, ByText(truth))
    decreases c
  {
    hide CondEval, ExprEval, CondToExpr, Texts, ByText;
    if AndsFirst(ItemOps(c.items)[1..]) {
      var j := BrokenEntry(c.items);
      EntryOf(c.items, j);
      assert c.items[j].cond < c.items[j];
      var inner := TreeBreaks(c.items[j].cond);
      truth := EntryBreaks(c.items, j, inner);
    } else {
      truth := GroupBreaks(c.items);
    }
  }

  /** On every row that decides by text, the expression means what the condition meant. */
  ghost predicate MeaningKept(c: C.Condition) {
    forall row: Row :: Textual(row) ==> ExprEval(CondToExpr(c), row) == CondEval(c, row)
  }

  /** A tree over distinct leaves keeps its meaning exactly when every group in it has its ANDs first. */
  lemma {:induction false} TreeKeptIff(c: C.Condition)
    requires Grown(c) && Distinct(c)
    ensures MeaningKept(c) <==> Kept(c)
  {
    hide CondEval, ExprEval, CondToExpr, Kept, Grown, Distinct, Textual;
    if Kept(c) {
      forall row: Row | Textual(row)
        ensures ExprEval(CondToExpr(c), row) == CondEval(c, row)
      {
        CondKept(c, row);
      }
    } else {
      var truth := TreeBreaks(c);
      ByTextIs(truth);
    }
  }
}
