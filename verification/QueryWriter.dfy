/** The statement writer as written: parameter lists that grow while the text is pushed together. */
module QueryWriter {
  import opened Text
  import opened Values
  import opened Tokens
  import opened Leaves
  import opened Conditions
  import opened Queries

  // ----- WHERE -----

  lemma {:induction false} NothingFlattens()
    ensures Flatten([]) == ""
  {
  }

  lemma {:induction false} NextWhere(d: Dialect, conds: seq<Item>, idx: nat, off: nat, out: string)
    requires idx < |conds|
    ensures var frag := Flatten(CondToks(d, conds[idx].cond, off));
            var more := Flatten(RestToks(d, conds, idx + 1, off + |CondParams(conds[idx].cond)|));
            (if idx > 0 then out + Spell(JoinTok(conds[idx].op)) else out) + frag + more
            == out + Flatten(RestToks(d, conds, idx, off))
    ensures ItemsParams(conds[idx..]) == CondParams(conds[idx].cond) + ItemsParams(conds[idx + 1..])
  {
    hide *;
    NextItem(d, conds, idx, off, []);
    assert [] + RestToks(d, conds, idx, off) == RestToks(d, conds, idx, off);
    JoinFlatten(Lead(conds, idx), CondToks(d, conds[idx].cond, off),
                RestToks(d, conds, idx + 1, off + |CondParams(conds[idx].cond)|));
    LeadText(conds, idx);
  }

  lemma {:induction false} JoinFlatten(lead: seq<Tok>, frag: seq<Tok>, more: seq<Tok>)
    ensures Flatten([] + (lead + frag) + more) == Flatten(lead) + Flatten(frag) + Flatten(more)
  {
    assert [] + (lead + frag) + more == (lead + frag) + more;
    FlattenCat(lead, frag);
    FlattenCat(lead + frag, more);
  }

  lemma {:induction false} LeadText(conds: seq<Item>, idx: nat)
    requires idx < |conds|
    ensures Flatten(Lead(conds, idx)) == if idx > 0 then Spell(JoinTok(conds[idx].op)) else ""
  {
  }

  lemma {:induction false} WhereIs(d: Dialect, conds: seq<Item>, off: nat)
    ensures WhereText(d, conds, off) == if conds == [] then "" else " WHERE " + Flatten(RestToks(d, conds, 0, off))
    ensures conds == [] ==> ItemsParams(conds) == []
  {
    WholeList(d, conds, off);
  }

  method BuildWhere(d: Dialect, conds: seq<Item>, params: seq<SqlValue>) returns (out: string, all: seq<SqlValue>)
    ensures out == WhereText(d, conds, |params| + 1) && all == params + ItemsParams(conds)
  {
    hide *;
    WhereIs(d, conds, |params| + 1);
    out, all := "", params;
    if conds != [] {
      out := " WHERE ";
      assert conds[0..] == conds;
      for idx := 0 to |conds|
        invariant all + ItemsParams(conds[idx..]) == params + ItemsParams(conds)
        invariant out + Flatten(RestToks(d, conds, idx, |all| + 1))
               == " WHERE " + Flatten(RestToks(d, conds, 0, |params| + 1))
      {
        NextWhere(d, conds, idx, |all| + 1, out);
        var frag, ps := ToParamSql(d, conds[idx].cond, |all| + 1);
        all := all + ps;
        if idx > 0 {
          out := out + Spell(JoinTok(conds[idx].op));
        }
        out := out + Flatten(frag);
      }
      NoMoreItems(d, conds, |all| + 1);
      NothingFlattens();
    }
  }

  // ----- CTEs and whole statements -----

  /** The definitions before they are joined by commas. */
  function CteParts(d: Dialect, ctes: seq<Cte>, n: nat): seq<string>
    decreases ctes
  {
    if ctes == [] then []
    else
      [CteHead(ctes[0]) + Renumbered(SqlText(d, ctes[0].sub), n) + ")"]
      + CteParts(d, ctes[1..], n + |Params(ctes[0].sub)|)
  }

  lemma {:induction false} JoinedParts(d: Dialect, ctes: seq<Cte>, n: nat)
    ensures Join(CteParts(d, ctes, n), ", ") == CteList(d, ctes, n) && |CteParts(d, ctes, n)| == |ctes|
    decreases ctes
  {
    hide SqlText, Params, CteHead, Renumbered;
    if ctes != [] {
      var n' := n + |Params(ctes[0].sub)|;
      JoinedParts(d, ctes[1..], n');
      var parts := CteParts(d, ctes, n);
      assert parts[1..] == CteParts(d, ctes[1..], n');
    }
  }

  lemma {:induction false} NextPart(d: Dialect, ctes: seq<Cte>, k: nat, n: nat, parts: seq<string>, all: seq<SqlValue>)
    requires k < |ctes|
    ensures var sub := ctes[k].sub;
            && parts + [CteHead(ctes[k]) + Renumbered(SqlText(d, sub), n) + ")"] + CteParts(d, ctes[k + 1..], n + |Params(sub)|)
               == parts + CteParts(d, ctes[k..], n)
            && all + Params(sub) + CteParams(ctes[k + 1..]) == all + CteParams(ctes[k..])
  {
    hide SqlText, Params, CteHead, Renumbered;
    assert ctes[k..][1..] == ctes[k + 1..];
  }

  lemma {:induction false} NoMoreParts(d: Dialect, n: nat)
    ensures CteParts(d, [], n) == [] && CteParams([]) == []
  {
  }

  lemma {:induction false} CtesIs(d: Dialect, ctes: seq<Cte>)
    ensures CtesText(d, ctes) == if ctes == [] then "" else WithWord(ctes) + Join(CteParts(d, ctes, 0), ", ") + " "
    ensures ctes == [] ==> CteParams(ctes) == []
  {
    JoinedParts(d, ctes, 0);
  }

  method BuildCtes(d: Dialect, ctes: seq<Cte>) returns (prefix: string, params: seq<SqlValue>)
    ensures prefix == CtesText(d, ctes) && params == CteParams(ctes)
    decreases ctes, 0
  {
    hide *;
    CtesIs(d, ctes);
    prefix, params := "", [];
    if ctes != [] {
      var parts: seq<string> := [];
      assert ctes[0..] == ctes;
      for k := 0 to |ctes|
        invariant params + CteParams(ctes[k..]) == CteParams(ctes)
        invariant parts + CteParts(d, ctes[k..], |params|) == CteParts(d, ctes, 0)
      {
        assert ctes[k].sub < ctes[k];
        NextPart(d, ctes, k, |params|, parts, params);
        var sql, ps := ToSql(d, ctes[k].sub);
        var adjusted := RenumberParams(sql, |params|);
        params := params + ps;
        parts := parts + [CteHead(ctes[k]) + adjusted + ")"];
      }
      assert ctes[|ctes|..] == [];
      NoMoreParts(d, |params|);
      assert parts + [] == parts;
      prefix := WithWord(ctes) + Join(parts, ", ") + " ";
    }
  }

  lemma {:induction false} SqlIs(d: Dialect, q: Query)
    ensures Params(q) == CteParams(q.ctes) + ItemsParams(q.conds) + SetParams(q.setOp)
    ensures var n := |CteParams(q.ctes)|;
            SqlText(d, q)
            == CtesText(d, q.ctes) + (SelectHead(q) + WhereText(d, q.conds, n + 1) + Spaces(q.clauses))
               + SetText(d, q.setOp, n + |ItemsParams(q.conds)|)
  {
    hide ItemsParams, CteParams, CtesText, SelectHead, WhereText, Spaces, SetText;
  }

  lemma {:induction false} SetIs(d: Dialect, s: SetOp, n: nat)
    ensures SetParams(s) == if s.NoSet? then [] else Params(s.rhs)
    ensures SetText(d, s, n)
         == if s.NoSet? then ""
            else
              " " + KindText(s.kind) + " SELECT "
              + CutSelect(if d.Postgres? && n > 0 then Renumbered(SqlText(d, s.rhs), n) else SqlText(d, s.rhs))
  {
    hide SqlText, Params, CutSelect, KindText;
  }

  method ToSql(d: Dialect, q: Query) returns (sql: string, params: seq<SqlValue>)
    ensures sql == SqlText(d, q) && params == Params(q)
    decreases q, 1
  {
    hide *;
    SqlIs(d, q);
    SetIs(d, q.setOp, |CteParams(q.ctes)| + |ItemsParams(q.conds)|);
    var prefix, where;
    prefix, params := BuildCtes(d, q.ctes);
    where, params := BuildWhere(d, q.conds, params);
    sql := prefix + (SelectHead(q) + where + Spaces(q.clauses));
    if q.setOp.SetWith? {
      var rhs, rhsParams := ToSql(d, q.setOp.rhs);
      if d.Postgres? && |params| > 0 {
        rhs := RenumberParams(rhs, |params|);
      }
      sql := sql + (" " + KindText(q.setOp.kind) + " SELECT " + CutSelect(rhs));
      params := params + rhsParams;
    }
  }
}
