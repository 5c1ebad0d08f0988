/**
 * Search conditions as SQL reads them (section 8.12 of SQL-92, ISO/IEC 9075:1992): NOT binds tighter than
 * AND, AND tighter than OR, and truth has three values.
 */
module Search {
  import opened Values
  import opened Tokens
  import opened Leaves

  datatype Tri = True | False | Unknown

  function TNot(a: Tri): Tri {
    match a
    case True => False
    case False => True
    case Unknown => Unknown
  }

  function TAnd(a: Tri, b: Tri): Tri {
    if a.False? || b.False? then False
    else if a.Unknown? || b.Unknown? then Unknown
    else True
  }

  function TOr(a: Tri, b: Tri): Tri {
    if a.True? || b.True? then True
    else if a.Unknown? || b.Unknown? then Unknown
    else False
  }

  lemma {:induction false} TriLaws(a: Tri, b: Tri, c: Tri)
    ensures TAnd(TAnd(a, b), c) == TAnd(a, TAnd(b, c)) && TAnd(a, True) == a
    ensures TOr(TOr(a, b), c) == TOr(a, TOr(b, c)) && TOr(a, False) == a
  {
  }

  /** What one row makes of each atomic predicate, given its tokens with their values but without their numbers. */
  type Row = seq<Tok> -> Tri

  datatype Tree =
    | Atom(ts: seq<Tok>)
    | Neg(t: Tree)
    | Conj(l: Tree, r: Tree)
    | Disj(l: Tree, r: Tree)

  function Eval(t: Tree, row: Row): Tri {
    match t
    case Atom(ts) => row(Erase(ts))
    case Neg(t) => TNot(Eval(t, row))
    case Conj(l, r) => TAnd(Eval(l, row), Eval(r, row))
    case Disj(l, r) => TOr(Eval(l, row), Eval(r, row))
  }

  // ----- The reader -----

  datatype Parsed = Fail | Got(tree: Tree, rest: seq<Tok>)

  predicate AtomTok(t: Tok) {
    t.Frag? || t.Ph?
  }

  function AtomRun(ts: seq<Tok>): (n: nat)
    ensures n <= |ts|
    ensures forall i :: 0 <= i < n ==> AtomTok(ts[i])
    ensures n < |ts| ==> !AtomTok(ts[n])
  {
    if ts != [] && AtomTok(ts[0]) then 1 + AtomRun(ts[1..]) else 0
  }

  function ReadFactor(ts: seq<Tok>): (p: Parsed)
    ensures p.Got? ==> |p.rest| < |ts|
    decreases |ts|, 0
  {
    if ts == [] then Fail
    else if AtomTok(ts[0]) then Got(Atom(ts[..AtomRun(ts)]), ts[AtomRun(ts)..])
    else if ts[0] == NOT then
      match ReadFactor(ts[1..])
      case Fail => Fail
      case Got(t, rest) => Got(Neg(t), rest)
    else if ts[0] == LP then
      match ReadSearch(ts[1..])
      case Fail => Fail
      case Got(t, rest) => if rest != [] && rest[0] == RP then Got(t, rest[1..]) else Fail
    else Fail
  }

  function AndTail(acc: Tree, ts: seq<Tok>): (p: Parsed)
    ensures p.Got? ==> |p.rest| <= |ts|
    decreases |ts|, 1
  {
    if ts != [] && ts[0] == AND then
      match ReadFactor(ts[1..])
      case Fail => Fail
      case Got(t, rest) => AndTail(Conj(acc, t), rest)
    else Got(acc, ts)
  }

  function ReadTerm(ts: seq<Tok>): (p: Parsed)
    ensures p.Got? ==> |p.rest| < |ts|
    decreases |ts|, 2
  {
    match ReadFactor(ts)
    case Fail => Fail
    case Got(t, rest) => AndTail(t, rest)
  }

  function OrTail(acc: Tree, ts: seq<Tok>): (p: Parsed)
    ensures p.Got? ==> |p.rest| <= |ts|
    decreases |ts|, 3
  {
    if ts != [] && ts[0] == OR then
      match ReadTerm(ts[1..])
      case Fail => Fail
      case Got(t, rest) => OrTail(Disj(acc, t), rest)
    else Got(acc, ts)
  }

  function ReadSearch(ts: seq<Tok>): (p: Parsed)
    ensures p.Got? ==> |p.rest| < |ts|
    decreases |ts|, 4
  {
    match ReadTerm(ts)
    case Fail => Fail
    case Got(t, rest) => OrTail(t, rest)
  }

  /** The whole sequence read as one search condition. */
  function Read(ts: seq<Tok>): Option<Tree> {
    match ReadSearch(ts)
    case Fail => None
    case Got(t, rest) => if rest == [] then Some(t) else None
  }

  /** What may follow a complete factor. */
  predicate Stops(rest: seq<Tok>) {
    rest == [] || rest[0] == AND || rest[0] == OR || rest[0] == RP
  }

  predicate Closes(rest: seq<Tok>) {
    rest == [] || rest[0] == RP
  }

  lemma {:induction false} ReadAtom(ts: seq<Tok>, rest: seq<Tok>)
    requires ts != [] && Stops(rest)
    requires forall t :: t in ts ==> AtomTok(t)
    ensures ReadFactor(ts + rest) == Got(Atom(ts), rest)
  {
    AtomRunOf(ts, rest);
    assert (ts + rest)[..|ts|] == ts && (ts + rest)[|ts|..] == rest;
  }

  lemma {:induction false} AtomRunOf(ts: seq<Tok>, rest: seq<Tok>)
    requires Stops(rest)
    requires forall t :: t in ts ==> AtomTok(t)
    ensures AtomRun(ts + rest) == |ts|
  {
    if ts == [] {
      assert ts + rest == rest;
    } else {
      AtomRunOf(ts[1..], rest);
      assert (ts + rest)[1..] == ts[1..] + rest;
    }
  }

  // ----- Flat lists of joined truth values -----

  datatype Joined = Joined(op: JoinOp, val: Tri)

  /** How many entries at the front are joined by AND. */
  function AndRun(js: seq<Joined>): (n: nat)
    ensures n <= |js|
  {
    if js != [] && js[0].op.JoinAnd? then 1 + AndRun(js[1..]) else 0
  }

  lemma {:induction false} AndRunEnds(js: seq<Joined>)
    ensures forall i :: 0 <= i < AndRun(js) ==> js[i].op.JoinAnd?
    ensures AndRun(js) < |js| ==> js[AndRun(js)].op.JoinOr?
  {
    if js != [] && js[0].op.JoinAnd? {
      AndRunEnds(js[1..]);
    }
  }

  function AllOf(js: seq<Joined>): Tri {
    if js == [] then True else TAnd(js[0].val, AllOf(js[1..]))
  }

  function AnyOf(js: seq<Joined>): Tri {
    if js == [] then False else TOr(js[0].val, AnyOf(js[1..]))
  }

  /** The OR of the maximal AND-runs of a flat list. The operator of the first entry is not looked at. */
  function OrOfRuns(js: seq<Joined>): Tri
    requires js != []
  {
    var n := 1 + AndRun(js[1..]);
    TOr(AllOf(js[..n]), if n == |js| then False else OrOfRuns(js[n..]))
  }

  /** The left fold of a flat list, which lets AND and OR bind alike. */
  function LeftFold(acc: Tri, js: seq<Joined>): Tri
    decreases js
  {
    if js == [] then acc
    else LeftFold(if js[0].op.JoinAnd? then TAnd(acc, js[0].val) else TOr(acc, js[0].val), js[1..])
  }

  /** No entry joined by AND comes after an entry joined by OR. */
  ghost predicate AndsFirst(ops: seq<JoinOp>) {
    forall i, j :: 0 <= i < j < |ops| && ops[i].JoinOr? ==> ops[j].JoinOr?
  }

  function Zip(ops: seq<JoinOp>, vals: seq<Tri>): seq<Joined>
    requires |ops| == |vals|
  {
    seq(|ops|, i requires 0 <= i < |ops| => Joined(ops[i], vals[i]))
  }

  lemma {:induction false} FoldAnds(acc: Tri, js: seq<Joined>)
    requires forall j :: j in js ==> j.op.JoinAnd?
    ensures LeftFold(acc, js) == TAnd(acc, AllOf(js))
    ensures AndRun(js) == |js|
    decreases js
  {
    if js != [] {
      FoldAnds(TAnd(acc, js[0].val), js[1..]);
    }
  }

  lemma {:induction false} FoldOrs(acc: Tri, js: seq<Joined>)
    requires forall j :: j in js ==> j.op.JoinOr?
    ensures LeftFold(acc, js) == TOr(acc, AnyOf(js))
    ensures js != [] ==> OrOfRuns(js) == AnyOf(js)
    decreases js
  {
    if js != [] {
      FoldOrs(TOr(acc, js[0].val), js[1..]);
      assert js[..1] == [js[0]] && AllOf([js[0]]) == js[0].val;
      if |js| > 1 {
        assert js[1] in js;
      }
    }
  }

  lemma {:induction false} LeftFoldCat(acc: Tri, a: seq<Joined>, b: seq<Joined>)
    ensures LeftFold(acc, a + b) == LeftFold(LeftFold(acc, a), b)
    decreases a
  {
    if a == [] {
      assert a + b == b;
    } else {
      LeftFoldCat(if a[0].op.JoinAnd? then TAnd(acc, a[0].val) else TOr(acc, a[0].val), a[1..], b);
      assert (a + b)[1..] == a[1..] + b;
    }
  }

  lemma {:induction false} AndsFirstSplit(js: seq<Joined>, ops: seq<JoinOp>)
    requires |js| == |ops| && forall i :: 0 <= i < |ops| ==> js[i].op == ops[i]
    requires AndsFirst(ops)
    ensures var n := AndRun(js);
            && (forall j :: j in js[..n] ==> j.op.JoinAnd?)
            && (forall j :: j in js[n..] ==> j.op.JoinOr?)
  {
    var n := AndRun(js);
    AndRunEnds(js);
    if n < |js| {
      assert ops[n].JoinOr?;
      forall i | n <= i < |js|
        ensures js[i].op.JoinOr?
      {
        assert js[i].op == ops[i];
      }
    }
  }

  function Ops(js: seq<Joined>): seq<JoinOp> {
    seq(|js|, i requires 0 <= i < |js| => js[i].op)
  }

  /** When the ANDs come first, the left fold reads a flat list as SQL does. */
  lemma {:induction false} FoldAgrees(js: seq<Joined>)
    requires js != [] && AndsFirst(Ops(js)[1..])
    ensures LeftFold(js[0].val, js[1..]) == OrOfRuns(js)
  {
    var rest := js[1..];
    var n := AndRun(rest);
    AndsFirstSplit(rest, Ops(js)[1..]);
    assert rest == rest[..n] + rest[n..];
    LeftFoldCat(js[0].val, rest[..n], rest[n..]);
    FoldAnds(js[0].val, rest[..n]);
    FoldOrs(TAnd(js[0].val, AllOf(rest[..n])), rest[n..]);
    assert js[..n + 1][1..] == rest[..n] && js[n + 1..] == rest[n..];
  }

  lemma {:induction false} AllTrue(js: seq<Joined>)
    requires forall j :: j in js ==> j.val.True?
    ensures AllOf(js).True? && LeftFold(True, js).True?
    decreases js
  {
    if js != [] {
      assert js[0] in js;
      AllTrue(js[1..]);
    }
  }

  lemma {:induction false} FoldFalse(js: seq<Joined>)
    requires forall j :: j in js ==> j.val.False?
    ensures LeftFold(False, js).False?
    decreases js
  {
    if js != [] {
      assert js[0] in js;
      FoldFalse(js[1..]);
    }
  }

  /** A first run of true entries, ended by an OR, makes the whole list true. */
  lemma {:induction false} FirstRunTrue(js: seq<Joined>, i: nat)
    requires 0 < i < |js| && js[i].op.JoinOr?
    requires forall k :: 0 <= k < i ==> js[k].val.True?
    ensures OrOfRuns(js).True?
  {
    var n := 1 + AndRun(js[1..]);
    AndRunEnds(js[1..]);
    assert js[1..][i - 1] == js[i];
    assert n <= i;
    AllTrue(js[..n]);
  }

  predicate Known(vals: seq<Tri>) {
    forall i :: 0 <= i < |vals| ==> !vals[i].Unknown?
  }

  /** An AND after an OR: values on which the left fold and SQL disagree. */
  lemma {:induction false} FoldDisagrees(ops: seq<JoinOp>, i: nat, j: nat) returns (vals: seq<Tri>)
    requires 0 < i < j < |ops| && ops[i].JoinOr? && ops[j].JoinAnd?
    ensures |vals| == |ops| && Known(vals)
    ensures LeftFold(vals[0], Zip(ops, vals)[1..]) != OrOfRuns(Zip(ops, vals))
  {
    vals := seq(|ops|, k requires 0 <= k < |ops| => if k < j then True else False);
    FirstRunTrue(Zip(ops, vals), i);
    FoldBroken(Zip(ops, vals), j);
  }

  lemma {:induction false} FoldBroken(js: seq<Joined>, j: nat)
    requires 0 < j < |js| && js[j].op.JoinAnd?
    requires forall k :: 0 <= k < |js| ==> js[k].val == if k < j then True else False
    ensures LeftFold(True, js[1..]).False?
  {
    var rest := js[j..];
    assert js[1..] == js[1..j] + rest;
    LeftFoldCat(True, js[1..j], rest);
    AllTrue(js[1..j]);
    FoldFalse(rest[1..]);
  }

  /** The left fold reads the list as SQL does, whatever the values, exactly when the ANDs come first. */
  lemma {:induction false} FoldIsPrecedenceIff(ops: seq<JoinOp>)
    requires ops != []
    ensures (forall vals: seq<Tri> :: |vals| == |ops| ==>
               LeftFold(vals[0], Zip(ops, vals)[1..]) == OrOfRuns(Zip(ops, vals)))
        <==> AndsFirst(ops[1..])
  {
    if AndsFirst(ops[1..]) {
      forall vals: seq<Tri> | |vals| == |ops|
        ensures LeftFold(vals[0], Zip(ops, vals)[1..]) == OrOfRuns(Zip(ops, vals))
      {
        assert Ops(Zip(ops, vals)) == ops;
        FoldAgrees(Zip(ops, vals));
      }
    } else {
      var i, j :| 0 <= i < j < |ops[1..]| && ops[1..][i].JoinOr? && !ops[1..][j].JoinOr?;
      var vals := FoldDisagrees(ops, i + 1, j + 1);
    }
  }

  // ----- Reading a flat list back -----

  /** Followed by anything that ends a factor, the tokens read as one factor of the given value, or not at all. */
  ghost predicate Reads(ts: seq<Tok>, val: Option<Tri>, row: Row) {
    forall rest :: Stops(rest) ==> ReadsBefore(ts, rest, val, row)
  }

  ghost predicate ReadsBefore(ts: seq<Tok>, rest: seq<Tok>, val: Option<Tri>, row: Row) {
    var p := ReadFactor(ts + rest);
    if val.Some? then p.Got? && p.rest == rest && Eval(p.tree, row) == val.value else p.Fail?
  }

  datatype Entry = Entry(op: JoinOp, ts: seq<Tok>, val: Option<Tri>)

  ghost predicate AllRead(es: seq<Entry>, row: Row) {
    forall i :: 0 <= i < |es| ==> Reads(es[i].ts, es[i].val, row)
  }

  predicate AllSome(es: seq<Entry>) {
    forall i :: 0 <= i < |es| ==> es[i].val.Some?
  }

  function Joins(es: seq<Entry>): seq<Joined> {
    seq(|es|, i requires 0 <= i < |es| =>
      Joined(es[i].op, if es[i].val.Some? then es[i].val.value else Unknown))
  }

  /** The entries, each after its join operator. */
  function Tail(es: seq<Entry>): seq<Tok> {
    if es == [] then [] else [JoinTok(es[0].op)] + es[0].ts + Tail(es[1..])
  }

  /** The entries, the first one without its join operator. */
  function List(es: seq<Entry>): seq<Tok> {
    if es == [] then [] else es[0].ts + Tail(es[1..])
  }

  lemma {:induction false} TailStops(es: seq<Entry>, rest: seq<Tok>)
    requires Closes(rest)
    ensures Stops(Tail(es) + rest)
    ensures es == [] || es[0].op.JoinOr? ==> Tail(es) + rest == [] || (Tail(es) + rest)[0] != AND
    ensures es == [] ==> Tail(es) + rest == rest
    ensures es != [] ==> (Tail(es) + rest)[1..] == es[0].ts + (Tail(es[1..]) + rest)
    ensures es != [] ==> List(es) + rest == es[0].ts + (Tail(es[1..]) + rest)
  {
  }

  lemma {:induction false} ReadHead(es: seq<Entry>, rest: seq<Tok>, row: Row)
    requires AllRead(es, row) && Closes(rest) && es != []
    ensures ReadsBefore(es[0].ts, Tail(es[1..]) + rest, es[0].val, row)
  {
    TailStops(es[1..], rest);
    assert Reads(es[0].ts, es[0].val, row);
  }

  lemma {:induction false} AndTailIs(acc: Tree, ts: seq<Tok>)
    ensures AndTail(acc, ts)
         == if ts != [] && ts[0] == AND then
              var p := ReadFactor(ts[1..]);
              if p.Fail? then Fail else AndTail(Conj(acc, p.tree), p.rest)
            else Got(acc, ts)
  {
    hide ReadFactor;
  }

  /** The AND-joined entries at the front are read into one conjunction. */
  lemma {:induction false} ReadRun(es: seq<Entry>, rest: seq<Tok>, acc: Tree, row: Row)
    requires AllRead(es, row) && Closes(rest)
    ensures var n := AndRun(Joins(es));
            var p := AndTail(acc, Tail(es) + rest);
            if AllSome(es[..n]) then
              && p.Got? && p.rest == Tail(es[n..]) + rest
              && Eval(p.tree, row) == TAnd(Eval(acc, row), AllOf(Joins(es[..n])))
            else p.Fail?
    decreases |es|
  {
    hide ReadFactor, AndTail, List, Reads, Tail;
    var n := AndRun(Joins(es));
    TailStops(es, rest);
    TailStarts(es, rest);
    AndTailIs(acc, Tail(es) + rest);
    if n == 0 {
      assert es[0..] == es && es[..0] == [] && AllOf(Joins([])) == True;
      TriLaws(Eval(acc, row), True, True);
    } else {
      var more := Tail(es[1..]) + rest;
      ReadHead(es, rest, row);
      assert Joins(es)[1..] == Joins(es[1..]);
      RunSplit(es, n);
      if es[0].val.Some? {
        var t := ReadFactor(es[0].ts + more).tree;
        ReadRun(es[1..], rest, Conj(acc, t), row);
        TriLaws(Eval(acc, row), Eval(t, row), AllOf(Joins(es[1..][..n - 1])));
      }
    }
  }

  lemma {:induction false} TailStarts(es: seq<Entry>, rest: seq<Tok>)
    ensures es != [] ==> Tail(es) + rest != [] && (Tail(es) + rest)[0] == JoinTok(es[0].op)
  {
    hide JoinTok;
  }

  lemma {:induction false} RunSplit(es: seq<Entry>, n: nat)
    requires 0 < n <= |es|
    ensures es[..n] == [es[0]] + es[1..][..n - 1] && es[n..] == es[1..][n - 1..]
    ensures AllSome(es[..n]) <==> es[0].val.Some? && AllSome(es[1..][..n - 1])
    ensures AllOf(Joins(es[..n])) == TAnd(Joins(es)[0].val, AllOf(Joins(es[1..][..n - 1])))
  {
    var front := es[1..][..n - 1];
    assert es[..n] == [es[0]] + front;
    assert Joins(es[..n])[1..] == Joins(front);
    if AllSome(es[..n]) {
      assert forall i :: 0 <= i < n - 1 ==> front[i] == es[..n][i + 1];
    }
  }

  /** The first maximal AND-run of a list is read into one conjunction. */
  lemma {:induction false} ReadFirstRun(es: seq<Entry>, rest: seq<Tok>, row: Row) returns (n: nat, p: Parsed)
    requires AllRead(es, row) && Closes(rest) && es != []
    ensures 0 < n == 1 + AndRun(Joins(es)[1..]) <= |es| && p == ReadTerm(List(es) + rest)
    ensures n < |es| ==> es[n].op.JoinOr?
    ensures if AllSome(es[..n]) then
              p.Got? && p.rest == Tail(es[n..]) + rest && Eval(p.tree, row) == AllOf(Joins(es[..n]))
            else p.Fail?
  {
    n, p := 1 + AndRun(Joins(es)[1..]), ReadTerm(List(es) + rest);
    AndRunEnds(Joins(es)[1..]);
    var more := Tail(es[1..]) + rest;
    assert Joins(es)[1..] == Joins(es[1..]);
    TailStops(es, rest);
    ReadHead(es, rest, row);
    RunSplit(es, n);
    if es[0].val.Some? {
      ReadRun(es[1..], rest, ReadFactor(es[0].ts + more).tree, row);
    }
  }

  function OrsValue(es: seq<Entry>): Tri {
    if es == [] then False else OrOfRuns(Joins(es))
  }

  lemma {:induction false} OrTailIs(acc: Tree, ts: seq<Tok>)
    ensures OrTail(acc, ts)
         == if ts != [] && ts[0] == OR then
              var p := ReadTerm(ts[1..]);
              if p.Fail? then Fail else OrTail(Disj(acc, p.tree), p.rest)
            else Got(acc, ts)
  {
    hide ReadTerm;
  }

  lemma {:induction false} ReadOrs(es: seq<Entry>, rest: seq<Tok>, acc: Tree, row: Row)
    requires AllRead(es, row) && Closes(rest)
    requires es != [] ==> es[0].op.JoinOr?
    ensures var p := OrTail(acc, Tail(es) + rest);
            if AllSome(es) then
              && p.Got? && p.rest == rest
              && Eval(p.tree, row) == TOr(Eval(acc, row), OrsValue(es))
            else p.Fail?
    decreases |es|
  {
    hide ReadTerm, OrTail, List, Reads, Tail;
    TailStops(es, rest);
    TailStarts(es, rest);
    OrTailIs(acc, Tail(es) + rest);
    TriLaws(Eval(acc, row), False, False);
    if es != [] {
      var n, p := ReadFirstRun(es, rest, row);
      RunsSplit(es, n);
      if p.Got? {
        ReadOrs(es[n..], rest, Disj(acc, p.tree), row);
        TriLaws(Eval(acc, row), Eval(p.tree, row), OrsValue(es[n..]));
      }
    }
  }

  lemma {:induction false} RunsSplit(es: seq<Entry>, n: nat)
    requires 0 < n <= |es|
    ensures AllSome(es) <==> AllSome(es[..n]) && AllSome(es[n..])
    ensures Joins(es)[..n] == Joins(es[..n]) && Joins(es)[n..] == Joins(es[n..])
    ensures n < |es| ==> es[n..][0] == es[n]
    ensures n == 1 + AndRun(Joins(es)[1..]) ==>
              OrOfRuns(Joins(es)) == TOr(AllOf(Joins(es[..n])), OrsValue(es[n..]))
  {
    if AllSome(es[..n]) && AllSome(es[n..]) {
      assert forall i :: 0 <= i < |es| ==> es[i] == if i < n then es[..n][i] else es[n..][i - n];
    }
    if AllSome(es) {
      assert forall i :: 0 <= i < |es| - n ==> es[n..][i] == es[n + i];
    }
  }

  /** A non-empty list reads as the OR of its maximal AND-runs, or not at all if one of its entries does not. */
  lemma {:induction false} ReadList(es: seq<Entry>, rest: seq<Tok>, row: Row)
    requires AllRead(es, row) && Closes(rest) && es != []
    ensures var p := ReadSearch(List(es) + rest);
            if AllSome(es) then p.Got? && p.rest == rest && Eval(p.tree, row) == OrOfRuns(Joins(es)) else p.Fail?
  {
    var n, p := ReadFirstRun(es, rest, row);
    RunsSplit(es, n);
    if p.Got? {
      ReadOrs(es[n..], rest, p.tree, row);
    }
  }

  function ListVal(es: seq<Entry>): Option<Tri> {
    if es != [] && AllSome(es) then Some(OrOfRuns(Joins(es))) else None
  }

  lemma {:induction false} ReadParen(body: seq<Tok>)
    ensures var p := ReadSearch(body);
            ReadFactor([LP] + body)
            == if p.Got? && p.rest != [] && p.rest[0] == RP then Got(p.tree, p.rest[1..]) else Fail
  {
    assert ([LP] + body)[1..] == body;
  }

  lemma {:induction false} ReadNothing(rest: seq<Tok>)
    ensures ReadSearch(List([]) + ([RP] + rest)).Fail?
  {
    assert List([]) + ([RP] + rest) == [RP] + rest;
    assert ReadFactor([RP] + rest).Fail? && ReadTerm([RP] + rest).Fail?;
  }

  /** A list in parentheses is a factor, unless it is empty or one of its entries cannot be read. */
  lemma {:induction false} ReadGroup(es: seq<Entry>, row: Row)
    requires AllRead(es, row)
    ensures Reads([LP] + List(es) + [RP], ListVal(es), row)
  {
    hide AllRead, List, OrOfRuns, ReadFactor, ReadSearch;
    forall rest | Stops(rest)
      ensures ReadsBefore([LP] + List(es) + [RP], rest, ListVal(es), row)
    {
      var after := [RP] + rest;
      assert [LP] + List(es) + [RP] + rest == [LP] + (List(es) + after);
      assert after[1..] == rest;
      ReadParen(List(es) + after);
      if es == [] {
        ReadNothing(rest);
      } else {
        ReadList(es, after, row);
      }
    }
  }

  lemma {:induction false} ReadsAtom(ts: seq<Tok>, row: Row)
    requires ts != [] && forall t :: t in ts ==> AtomTok(t)
    ensures Reads(ts, Some(row(Erase(ts))), row)
  {
    forall rest | Stops(rest)
      ensures ReadsBefore(ts, rest, Some(row(Erase(ts))), row)
    {
      ReadAtom(ts, rest);
    }
  }

  // ----- Splitting a flat list into its AND-joined and its OR-joined entries -----

  function Ands(js: seq<Joined>): seq<Joined> {
    if js == [] then []
    else if js[0].op.JoinAnd? then [js[0]] + Ands(js[1..])
    else Ands(js[1..])
  }

  function Ors(js: seq<Joined>): seq<Joined> {
    if js == [] then []
    else if js[0].op.JoinOr? then [js[0]] + Ors(js[1..])
    else Ors(js[1..])
  }

  /** All of one side, or any of the other; a side without entries does not count. */
  function AllOrAny(alls: seq<Joined>, anys: seq<Joined>): Tri {
    if anys == [] then AllOf(alls)
    else if alls == [] then AnyOf(anys)
    else TOr(AllOf(alls), AnyOf(anys))
  }

  lemma {:induction false} SplitOf(a: seq<Joined>, b: seq<Joined>)
    requires forall j :: j in a ==> j.op.JoinAnd?
    requires forall j :: j in b ==> j.op.JoinOr?
    ensures Ands(a + b) == a && Ors(a + b) == b
    decreases |a| + |b|
  {
    if a != [] {
      assert a[0] in a && (a + b)[1..] == a[1..] + b;
      SplitOf(a[1..], b);
    } else if b != [] {
      assert b[0] in b && a + b == b && [] + b[1..] == b[1..];
      SplitOf([], b[1..]);
    }
  }

  lemma {:induction false} SplitAgrees(js: seq<Joined>)
    requires js != [] && AndsFirst(Ops(js))
    ensures AllOrAny(Ands(js), Ors(js)) == OrOfRuns(js)
  {
    var n := AndRun(js);
    AndsFirstSplit(js, Ops(js));
    SplitOf(js[..n], js[n..]);
    assert js == js[..n] + js[n..];
    FoldOrs(True, js[n..]);
    if n > 0 {
      assert 1 + AndRun(js[1..]) == n;
    }
  }

  lemma {:induction false} FalseInRun(js: seq<Joined>, k: nat)
    requires k < |js| && js[k].val.False?
    ensures AllOf(js).False?
    decreases k
  {
    if k > 0 {
      FalseInRun(js[1..], k - 1);
    }
  }

  predicate FalseFrom(js: seq<Joined>, h: nat)
    requires h < |js|
  {
    js[h].val.False? || (h + 1 < |js| && js[h + 1].op.JoinAnd? && js[h + 1].val.False?)
  }

  /** Every run holds a false entry: its head, or the entry joined to its head by AND. */
  lemma {:induction false} EveryRunFalse(js: seq<Joined>)
    requires js != []
    requires forall h :: 0 <= h < |js| ==> FalseFrom(js, h)
    ensures OrOfRuns(js).False?
  {
    var n := 1 + AndRun(js[1..]);
    AndRunEnds(js[1..]);
    assert FalseFrom(js, 0);
    if js[0].val.False? {
      FalseInRun(js[..n], 0);
    } else {
      FalseInRun(js[..n], 1);
    }
    if n < |js| {
      forall h | 0 <= h < |js| - n
        ensures FalseFrom(js[n..], h)
      {
        assert FalseFrom(js, n + h);
      }
      EveryRunFalse(js[n..]);
    }
  }

  lemma {:induction false} AnyTrue(js: seq<Joined>, k: nat)
    requires k < |js| && js[k].op.JoinOr? && js[k].val.True?
    ensures Ors(js) != [] && AnyOf(Ors(js)).True?
    decreases k
  {
    if k > 0 {
      AnyTrue(js[1..], k - 1);
    }
  }

  /** Between an OR and a later AND there is an AND directly after an OR. */
  lemma {:induction false} AndAfterOr(ops: seq<JoinOp>, i: nat, j: nat) returns (k: nat)
    requires i < j < |ops| && ops[i].JoinOr? && ops[j].JoinAnd?
    ensures k + 1 < |ops| && ops[k].JoinOr? && ops[k + 1].JoinAnd?
    decreases j - i
  {
    if ops[i + 1].JoinAnd? {
      k := i;
    } else {
      k := AndAfterOr(ops, i + 1, j);
    }
  }

  lemma {:induction false} SplitDisagrees(ops: seq<JoinOp>, k: nat) returns (vals: seq<Tri>)
    requires k + 1 < |ops| && ops[k].JoinOr? && ops[k + 1].JoinAnd?
    ensures |vals| == |ops|
    ensures AllOrAny(Ands(Zip(ops, vals)), Ors(Zip(ops, vals))) != OrOfRuns(Zip(ops, vals))
  {
    vals := seq(|ops|, i requires 0 <= i < |ops| => if i == k then True else False);
    AnyTrue(Zip(ops, vals), k);
    EveryRunFalse(Zip(ops, vals));
  }

  /** Collecting the AND-joined and the OR-joined entries apart keeps the meaning exactly when the ANDs come first. */
  lemma {:induction false} SplitIsPrecedenceIff(ops: seq<JoinOp>)
    requires ops != []
    ensures (forall vals: seq<Tri> :: |vals| == |ops| ==>
               AllOrAny(Ands(Zip(ops, vals)), Ors(Zip(ops, vals))) == OrOfRuns(Zip(ops, vals)))
        <==> AndsFirst(ops)
  {
    if AndsFirst(ops) {
      forall vals: seq<Tri> | |vals| == |ops|
        ensures AllOrAny(Ands(Zip(ops, vals)), Ors(Zip(ops, vals))) == OrOfRuns(Zip(ops, vals))
      {
        assert Ops(Zip(ops, vals)) == ops;
        SplitAgrees(Zip(ops, vals));
      }
    } else {
      var i, j :| 0 <= i < j < |ops| && ops[i].JoinOr? && !ops[j].JoinOr?;
      var k := AndAfterOr(ops, i, j);
      var vals := SplitDisagrees(ops, k);
    }
  }

  // ----- A filter appended with AND -----

  lemma {:induction false} AllOfLast(js: seq<Joined>)
    requires js != [] && AllOf(js).True?
    ensures js[|js| - 1].val.True?
  {
    if |js| > 1 {
      AllOfLast(js[1..]);
    }
  }

  lemma {:induction false} OneRun(js: seq<Joined>)
    requires js != [] && forall k :: 0 < k < |js| ==> js[k].op.JoinAnd?
    ensures OrOfRuns(js) == AllOf(js)
  {
    FoldAnds(True, js[1..]);
    assert js[..|js|] == js;
  }

  /** A filter appended with AND binds every admitted row exactly when no entry after the first is joined by OR. */
  lemma {:induction false} AppendedFilterIff(ops: seq<JoinOp>)
    ensures (forall vals: seq<Tri> :: |vals| == |ops| + 1 && OrOfRuns(Zip(ops + [JoinAnd], vals)).True? ==>
               vals[|ops|].True?)
        <==> (forall k :: 0 < k < |ops| ==> ops[k].JoinAnd?)
  {
    if forall k :: 0 < k < |ops| ==> ops[k].JoinAnd? {
      forall vals: seq<Tri> | |vals| == |ops| + 1 && OrOfRuns(Zip(ops + [JoinAnd], vals)).True?
        ensures vals[|ops|].True?
      {
        OneRun(Zip(ops + [JoinAnd], vals));
        AllOfLast(Zip(ops + [JoinAnd], vals));
      }
    } else {
      var i :| 0 < i < |ops| && !ops[i].JoinAnd?;
      var vals := seq(|ops| + 1, k => if k < |ops| then True else False);
      FirstRunTrue(Zip(ops + [JoinAnd], vals), i);
      assert !vals[|ops|].True?;
    }
  }

  // ----- A test put in front -----

  lemma {:induction false} LaterRunTrue(js: seq<Joined>, p: nat)
    requires 0 < p < |js| && js[p].op.JoinOr? && forall k :: 0 < k < |js| ==> js[k].val.True?
    ensures OrOfRuns(js).True?
    decreases |js|
  {
    var n := 1 + AndRun(js[1..]);
    AndRunEnds(js[1..]);
    assert n <= p;
    if n < p {
      LaterRunTrue(js[n..], p - n);
    } else {
      AllTrueRuns(js[p..]);
    }
  }

  lemma {:induction false} AllTrueRuns(js: seq<Joined>)
    requires js != [] && forall k :: 0 <= k < |js| ==> js[k].val.True?
    ensures OrOfRuns(js).True?
  {
    AllTrue(js[..1 + AndRun(js[1..])]);
  }

  /** A test in front of a list, which starts its first run, binds exactly when no later entry is joined by OR. */
  lemma {:induction false} LeadingTestIff(ops: seq<JoinOp>)
    requires ops != []
    ensures (forall vals: seq<Tri> :: |vals| == |ops| && OrOfRuns(Zip(ops, vals)).True? ==> vals[0].True?)
        <==> (forall k :: 0 < k < |ops| ==> ops[k].JoinAnd?)
  {
    if forall k :: 0 < k < |ops| ==> ops[k].JoinAnd? {
      forall vals: seq<Tri> | |vals| == |ops| && OrOfRuns(Zip(ops, vals)).True?
        ensures vals[0].True?
      {
        OneRun(Zip(ops, vals));
      }
    } else {
      var i :| 0 < i < |ops| && !ops[i].JoinAnd?;
      var vals := seq(|ops|, k => if k == 0 then False else True);
      LaterRunTrue(Zip(ops, vals), i);
      assert !vals[0].True?;
    }
  }
}
