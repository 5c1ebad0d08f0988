/** CASE expressions, read back branch by branch. */
module CaseReading {
  import opened Values
  import opened Tokens
  import opened Leaves
  import opened Exprs

  /** A condition with the value that it picks. */
  datatype Arm = Arm(cond: seq<Tok>, value: SqlValue)

  datatype Choice = Choice(arms: seq<Arm>, otherwise: Option<SqlValue>)

  predicate IsWord(t: Tok) {
    t == Frag("CASE") || t == Frag(" WHEN ") || t == Frag(" THEN ") || t == Frag(" ELSE ") || t == Frag(" END")
  }

  function UntilWord(ts: seq<Tok>): (n: nat)
    ensures n <= |ts|
  {
    if ts == [] || IsWord(ts[0]) then 0 else 1 + UntilWord(ts[1..])
  }

  function ReadArms(ts: seq<Tok>): (seq<Arm>, seq<Tok>)
    decreases |ts|
  {
    if ts == [] || ts[0] != Frag(" WHEN ") then ([], ts)
    else
      var n := UntilWord(ts[1..]);
      var after := ts[1..][n..];
      if |after| < 2 || after[0] != Frag(" THEN ") || !after[1].Ph? then ([], ts)
      else ([Arm(ts[1..][..n], after[1].v)] + ReadArms(after[2..]).0, ReadArms(after[2..]).1)
  }

  function ReadOtherwise(ts: seq<Tok>): Option<Option<SqlValue>> {
    if ts == [Frag(" END")] then Some(None)
    else if |ts| == 3 && ts[0] == Frag(" ELSE ") && ts[1].Ph? && ts[2] == Frag(" END") then Some(Some(ts[1].v))
    else None
  }

  function ReadCase(ts: seq<Tok>): Option<Choice> {
    if ts == [] || ts[0] != Frag("CASE") then None
    else
      var arms := ReadArms(ts[1..]);
      match ReadOtherwise(arms.1)
      case None => None
      case Some(otherwise) => Some(Choice(arms.0, otherwise))
  }

  /** The branches as they were built, with the tokens of their conditions. */
  function Arms(d: Dialect, bs: seq<Branch>, off: nat): seq<Arm> {
    if bs == [] then []
    else
      [Arm(Opaque(ExprToks(d, bs[0].cond, off)), bs[0].val)] + Arms(d, bs[1..], off + |ExprParams(bs[0].cond)| + 1)
  }

  predicate Wordless(ts: seq<Tok>) {
    forall i :: 0 <= i < |ts| ==> !IsWord(ts[i])
  }

  /** At whatever offset, no condition of a branch holds a word of CASE. */
  ghost predicate QuietBranches(d: Dialect, bs: seq<Branch>) {
    forall i, off: nat :: 0 <= i < |bs| ==> Wordless(Opaque(ExprToks(d, bs[i].cond, off)))
  }

  lemma {:induction false} UntilWordOf(ts: seq<Tok>, rest: seq<Tok>)
    requires Wordless(ts) && rest != [] && IsWord(rest[0])
    ensures UntilWord(ts + rest) == |ts|
  {
    hide IsWord;
    if ts == [] {
      assert ts + rest == rest;
    } else {
      assert (ts + rest)[1..] == ts[1..] + rest;
      UntilWordOf(ts[1..], rest);
    }
  }

  lemma {:induction false} ArmRead(cond: seq<Tok>, ph: Tok, rest: seq<Tok>)
    requires Wordless(cond) && ph.Ph?
    ensures ReadArms([Frag(" WHEN ")] + cond + [Frag(" THEN ")] + [ph] + rest)
         == ([Arm(cond, ph.v)] + ReadArms(rest).0, ReadArms(rest).1)
  {
    hide Wordless;
    var after := [Frag(" THEN "), ph] + rest;
    var ts := [Frag(" WHEN ")] + cond + [Frag(" THEN ")] + [ph] + rest;
    UntilWordOf(cond, after);
    assert ts[1..] == cond + after;
    assert (cond + after)[..|cond|] == cond && (cond + after)[|cond|..] == after && after[2..] == rest;
  }

  lemma {:induction false} ArmsRead(d: Dialect, bs: seq<Branch>, off: nat, rest: seq<Tok>)
    requires QuietBranches(d, bs) && rest != [] && rest[0] != Frag(" WHEN ")
    ensures ReadArms(BranchToks(d, bs, off) + rest) == (Arms(d, bs, off), rest)
  {
    hide ExprToks, ExprParams, Opaque, Wordless, ReadArms, BranchToks, Arms, QuietBranches;
    NoBranches(d, off);
    if bs == [] {
      assert [] + rest == rest;
      NoArms(rest);
    } else {
      FirstBranch(d, bs, off);
      ArmsRead(d, bs[1..], off + |ExprParams(bs[0].cond)| + 1, rest);
      ArmRead(Opaque(ExprToks(d, bs[0].cond, off)), Ph(Number(d, off + |ExprParams(bs[0].cond)|), bs[0].val),
              BranchToks(d, bs[1..], off + |ExprParams(bs[0].cond)| + 1) + rest);
      Append(d, bs[0], off, BranchToks(d, bs[1..], off + |ExprParams(bs[0].cond)| + 1), rest);
    }
  }

  lemma {:induction false} NoBranches(d: Dialect, off: nat)
    ensures BranchToks(d, [], off) == [] && Arms(d, [], off) == []
  {
  }

  lemma {:induction false} FirstBranch(d: Dialect, bs: seq<Branch>, off: nat)
    requires bs != [] && QuietBranches(d, bs)
    ensures Wordless(Opaque(ExprToks(d, bs[0].cond, off))) && QuietBranches(d, bs[1..])
    ensures var off' := off + |ExprParams(bs[0].cond)| + 1;
            && BranchToks(d, bs, off) == OneBranch(d, bs[0], off) + BranchToks(d, bs[1..], off')
            && Arms(d, bs, off) == [Arm(Opaque(ExprToks(d, bs[0].cond, off)), bs[0].val)] + Arms(d, bs[1..], off')
  {
    hide ExprToks, ExprParams, Opaque, Wordless, OneBranch;
  }

  lemma {:induction false} Append(d: Dialect, b: Branch, off: nat, more: seq<Tok>, rest: seq<Tok>)
    ensures OneBranch(d, b, off) + more + rest
         == [Frag(" WHEN ")] + Opaque(ExprToks(d, b.cond, off)) + [Frag(" THEN ")]
            + [Ph(Number(d, off + |ExprParams(b.cond)|), b.val)] + (more + rest)
  {
    hide ExprToks, ExprParams, Opaque;
  }

  lemma {:induction false} NoArms(rest: seq<Tok>)
    requires rest != [] && rest[0] != Frag(" WHEN ")
    ensures ReadArms(rest) == ([], rest)
  {
  }

  /** A rendered CASE pairs each condition with its own value, in order, and ends with the ELSE value if there is one. */
  lemma {:induction false} CaseReads(d: Dialect, bs: seq<Branch>, els: Option<SqlValue>, off: nat)
    requires QuietBranches(d, bs)
    ensures ReadCase(ExprToks(d, Case(bs, els), off)) == Some(Choice(Arms(d, bs, off), els))
  {
    hide QuietBranches, BranchToks, BranchParams, Arms, ReadArms, ReadOtherwise, ElseToks, ExprToks;
    var off' := off + |BranchParams(bs)|;
    var rest := ElseToks(d, els, off') + [Frag(" END")];
    CaseIs(d, bs, els, off);
    var ts := [Frag("CASE")] + (BranchToks(d, bs, off) + rest);
    assert ts[1..] == BranchToks(d, bs, off) + rest;
    OtherwiseRead(d, els, off');
    ArmsRead(d, bs, off, rest);
  }

  lemma {:induction false} CaseIs(d: Dialect, bs: seq<Branch>, els: Option<SqlValue>, off: nat)
    ensures ExprToks(d, Case(bs, els), off)
         == [Frag("CASE")] + (BranchToks(d, bs, off) + (ElseToks(d, els, off + |BranchParams(bs)|) + [Frag(" END")]))
  {
    hide BranchToks, BranchParams, ElseToks;
  }

  lemma {:induction false} OtherwiseRead(d: Dialect, els: Option<SqlValue>, off: nat)
    ensures var rest := ElseToks(d, els, off) + [Frag(" END")];
            ReadOtherwise(rest) == Some(els) && rest[0] != Frag(" WHEN ")
  {
    assert " WHEN "[1] == 'W' && " ELSE "[1] == 'E' && " END"[1] == 'E';
    var rest := ElseToks(d, els, off) + [Frag(" END")];
    if els.None? {
      assert rest == [Frag(" END")];
    } else {
      assert |rest| == 3;
    }
  }
}
