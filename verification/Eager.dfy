/** Batch grouping of children under their parents. */
module Eager {
  import opened Values

  datatype WithMany<P, C> = WithMany(model: P, related: seq<C>)

  datatype WithOne<P, C> = WithOne(model: P, related: Option<C>)

  // ----- The nested-loop specification -----

  /** The children with a given key, in input order. */
  function Matching<C, K(==)>(children: seq<C>, fk: C -> K, key: K): seq<C> {
    if children == [] then []
    else (if fk(children[0]) == key then [children[0]] else []) + Matching(children[1..], fk, key)
  }

  /** The parent is the last one with its key. */
  ghost predicate LastWithKey<P, K>(parents: seq<P>, pk: P -> K, i: nat)
    requires i < |parents|
  {
    forall j :: i < j < |parents| ==> pk(parents[j]) != pk(parents[i])
  }

  function FirstOf<C>(cs: seq<C>): Option<C> {
    if cs == [] then None else Some(cs[0])
  }

  // ----- The key index: a later parent overwrites an earlier one -----

  ghost predicate IsIndex<P, K>(index: map<K, nat>, parents: seq<P>, pk: P -> K, n: nat)
    requires n <= |parents|
  {
    && (forall k :: k in index ==> index[k] < n && pk(parents[index[k]]) == k)
    && (forall i :: 0 <= i < n ==> pk(parents[i]) in index && i <= index[pk(parents[i])])
  }

  method BuildIndex<P, K(==)>(parents: seq<P>, pk: P -> K) returns (index: map<K, nat>)
    ensures IsIndex(index, parents, pk, |parents|)
  {
    index := map[];
    for i := 0 to |parents|
      invariant IsIndex(index, parents, pk, i)
    {
      index := index[pk(parents[i]) := i];
    }
  }

  lemma {:induction false} IndexIsLast<P, K>(index: map<K, nat>, parents: seq<P>, pk: P -> K, i: nat)
    requires IsIndex(index, parents, pk, |parents|) && i < |parents|
    ensures LastWithKey(parents, pk, i) <==> index[pk(parents[i])] == i
  {
    var last := index[pk(parents[i])];
    if last == i {
      forall j | i < j < |parents|
        ensures pk(parents[j]) != pk(parents[i])
      {
        assert j <= index[pk(parents[j])];
      }
    }
  }

  lemma {:induction false} MatchingSnoc<C, K>(children: seq<C>, c: C, fk: C -> K, key: K)
    ensures Matching(children + [c], fk, key) == Matching(children, fk, key) + if fk(c) == key then [c] else []
  {
    if children == [] {
      assert [] + [c] == [c] && [c][1..] == [];
    } else {
      MatchingSnoc(children[1..], c, fk, key);
      assert (children + [c])[1..] == children[1..] + [c];
    }
  }

  // ----- has-many -----

  /** What parent `i` holds after the first `k` children: those with its key, if it is the last parent with that key. */
  ghost predicate Grouped<P, C, K>(r: WithMany<P, C>, parents: seq<P>, i: nat, children: seq<C>, fk: C -> K, pk: P -> K)
    requires i < |parents|
  {
    && r.model == parents[i]
    && r.related == if LastWithKey(parents, pk, i) then Matching(children, fk, pk(parents[i])) else []
  }

  method GroupHasMany<P, C, K(==)>(parents: seq<P>, children: seq<C>, fk: C -> K, pk: P -> K)
    returns (result: seq<WithMany<P, C>>)
    ensures |result| == |parents|
    ensures forall i :: 0 <= i < |parents| ==> Grouped(result[i], parents, i, children, fk, pk)
  {
    result := seq(|parents|, i requires 0 <= i < |parents| => WithMany(parents[i], []));
    var index := BuildIndex(parents, pk);
    assert children[..0] == [];
    for k := 0 to |children|
      invariant |result| == |parents|
      invariant forall i :: 0 <= i < |parents| ==> Grouped(result[i], parents, i, children[..k], fk, pk)
    {
      var child := children[k];
      var key := fk(child);
      GroupStep(result, parents, index, children, k, fk, pk);
      if key in index {
        var idx := index[key];
        result := result[idx := result[idx].(related := result[idx].related + [child])];
      }
    }
    assert children[..|children|] == children;
  }

  lemma {:induction false} GroupStep<P, C, K>(result: seq<WithMany<P, C>>, parents: seq<P>, index: map<K, nat>, children: seq<C>, k: nat,
                                              fk: C -> K, pk: P -> K)
    requires |result| == |parents| && k < |children| && IsIndex(index, parents, pk, |parents|)
    requires forall i :: 0 <= i < |parents| ==> Grouped(result[i], parents, i, children[..k], fk, pk)
    ensures forall i :: 0 <= i < |parents| ==>
              var c := children[k];
              var hit := fk(c) in index && index[fk(c)] == i;
              Grouped(if hit then result[i].(related := result[i].related + [c]) else result[i],
                      parents, i, children[..k + 1], fk, pk)
  {
    var c := children[k];
    assert children[..k + 1] == children[..k] + [c];
    forall i | 0 <= i < |parents|
      ensures var hit := fk(c) in index && index[fk(c)] == i;
              Grouped(if hit then result[i].(related := result[i].related + [c]) else result[i],
                      parents, i, children[..k + 1], fk, pk)
    {
      IndexIsLast(index, parents, pk, i);
      MatchingSnoc(children[..k], c, fk, pk(parents[i]));
    }
  }

  // ----- has-one -----

  ghost predicate GroupedOne<P, C, K>(r: WithOne<P, C>, parents: seq<P>, i: nat, children: seq<C>, fk: C -> K, pk: P -> K)
    requires i < |parents|
  {
    && r.model == parents[i]
    && r.related == if LastWithKey(parents, pk, i) then FirstOf(Matching(children, fk, pk(parents[i]))) else None
  }

  method GroupHasOne<P, C, K(==)>(parents: seq<P>, children: seq<C>, fk: C -> K, pk: P -> K)
    returns (result: seq<WithOne<P, C>>)
    ensures |result| == |parents|
    ensures forall i :: 0 <= i < |parents| ==> GroupedOne(result[i], parents, i, children, fk, pk)
  {
    result := seq(|parents|, i requires 0 <= i < |parents| => WithOne(parents[i], None));
    var index := BuildIndex(parents, pk);
    assert children[..0] == [];
    for k := 0 to |children|
      invariant |result| == |parents|
      invariant forall i :: 0 <= i < |parents| ==> GroupedOne(result[i], parents, i, children[..k], fk, pk)
    {
      var child := children[k];
      var key := fk(child);
      OneStep(result, parents, index, children, k, fk, pk);
      if key in index {
        var idx := index[key];
        if result[idx].related.None? {
          result := result[idx := result[idx].(related := Some(child))];
        }
      }
    }
    assert children[..|children|] == children;
  }

  lemma {:induction false} OneStep<P, C, K>(result: seq<WithOne<P, C>>, parents: seq<P>, index: map<K, nat>, children: seq<C>, k: nat,
                                            fk: C -> K, pk: P -> K)
    requires |result| == |parents| && k < |children| && IsIndex(index, parents, pk, |parents|)
    requires forall i :: 0 <= i < |parents| ==> GroupedOne(result[i], parents, i, children[..k], fk, pk)
    ensures forall i :: 0 <= i < |parents| ==>
              var c := children[k];
              var hit := fk(c) in index && index[fk(c)] == i && result[i].related.None?;
              GroupedOne(if hit then result[i].(related := Some(c)) else result[i], parents, i, children[..k + 1], fk, pk)
  {
    var c := children[k];
    assert children[..k + 1] == children[..k] + [c];
    forall i | 0 <= i < |parents|
      ensures var hit := fk(c) in index && index[fk(c)] == i && result[i].related.None?;
              GroupedOne(if hit then result[i].(related := Some(c)) else result[i], parents, i, children[..k + 1], fk, pk)
    {
      IndexIsLast(index, parents, pk, i);
      MatchingSnoc(children[..k], c, fk, pk(parents[i]));
    }
  }

  // ----- Nothing is lost -----

  function Sum(ns: seq<nat>): nat {
    if ns == [] then 0 else ns[0] + Sum(ns[1..])
  }

  lemma {:induction false} SumBump(ns: seq<nat>, i: nat)
    requires i < |ns|
    ensures Sum(ns[i := ns[i] + 1]) == Sum(ns) + 1
  {
    if i > 0 {
      SumBump(ns[1..], i - 1);
      assert ns[i := ns[i] + 1][1..] == ns[1..][i - 1 := ns[1..][i - 1] + 1];
    } else {
      assert ns[0 := ns[0] + 1][1..] == ns[1..];
    }
  }

  lemma {:induction false} SumZero(ns: seq<nat>)
    requires forall i :: 0 <= i < |ns| ==> ns[i] == 0
    ensures Sum(ns) == 0
  {
    if ns != [] {
      SumZero(ns[1..]);
    }
  }

  function Lengths<P, C>(rs: seq<WithMany<P, C>>): seq<nat> {
    seq(|rs|, i requires 0 <= i < |rs| => |rs[i].related|)
  }

  ghost predicate HasParent<P, K>(parents: seq<P>, pk: P -> K, key: K) {
    exists i :: 0 <= i < |parents| && pk(parents[i]) == key
  }

  /** How many children have some parent with their key. */
  ghost function Parented<P, C, K>(parents: seq<P>, children: seq<C>, fk: C -> K, pk: P -> K): nat {
    if children == [] then 0
    else (if HasParent(parents, pk, fk(children[0])) then 1 else 0) + Parented(parents, children[1..], fk, pk)
  }

  ghost function Counts<P, C, K>(parents: seq<P>, children: seq<C>, fk: C -> K, pk: P -> K): seq<nat> {
    seq(|parents|, i requires 0 <= i < |parents| =>
      if LastWithKey(parents, pk, i) then |Matching(children, fk, pk(parents[i]))| else 0)
  }

  lemma {:induction false} FindLast<P, K>(parents: seq<P>, pk: P -> K, i: nat) returns (last: nat)
    requires i < |parents|
    ensures last < |parents| && pk(parents[last]) == pk(parents[i]) && LastWithKey(parents, pk, last)
    decreases |parents| - i
  {
    if LastWithKey(parents, pk, i) {
      last := i;
    } else {
      var j :| i < j < |parents| && pk(parents[j]) == pk(parents[i]);
      last := FindLast(parents, pk, j);
    }
  }

  lemma {:induction false} CountsAddUp<P, C, K>(parents: seq<P>, children: seq<C>, fk: C -> K, pk: P -> K)
    ensures Sum(Counts(parents, children, fk, pk)) == Parented(parents, children, fk, pk)
    decreases children
  {
    var counts := Counts(parents, children, fk, pk);
    if children == [] {
      SumZero(counts);
    } else {
      var rest, key := Counts(parents, children[1..], fk, pk), fk(children[0]);
      CountsAddUp(parents, children[1..], fk, pk);
      if HasParent(parents, pk, key) {
        var i :| 0 <= i < |parents| && pk(parents[i]) == key;
        var last := FindLast(parents, pk, i);
        OneMore(parents, children, fk, pk, last);
        SumBump(rest, last);
      } else {
        assert counts == rest;
      }
    }
  }

  lemma {:induction false} OneMore<P, C, K>(parents: seq<P>, children: seq<C>, fk: C -> K, pk: P -> K, last: nat)
    requires children != [] && last < |parents| && LastWithKey(parents, pk, last) && pk(parents[last]) == fk(children[0])
    ensures var rest := Counts(parents, children[1..], fk, pk);
            Counts(parents, children, fk, pk) == rest[last := rest[last] + 1]
  {
    var counts, rest := Counts(parents, children, fk, pk), Counts(parents, children[1..], fk, pk);
    forall i | 0 <= i < |parents|
      ensures counts[i] == if i == last then rest[i] + 1 else rest[i]
    {
      if i < last && LastWithKey(parents, pk, i) {
        assert pk(parents[last]) != pk(parents[i]);
      } else if i > last {
        assert pk(parents[i]) != pk(parents[last]);
      }
    }
  }

  /** A grouping holds exactly as many children as have a parent. */
  lemma {:induction false} GroupingConserves<P, C, K>(result: seq<WithMany<P, C>>, parents: seq<P>, children: seq<C>,
                                                      fk: C -> K, pk: P -> K)
    requires |result| == |parents|
    requires forall i :: 0 <= i < |parents| ==> Grouped(result[i], parents, i, children, fk, pk)
    ensures Sum(Lengths(result)) == Parented(parents, children, fk, pk)
  {
    CountsAddUp(parents, children, fk, pk);
    assert Lengths(result) == Counts(parents, children, fk, pk);
  }

  // ----- belongs-to -----

  /** The last row with a given key. */
  function LastRow<P, K(==)>(rows: seq<P>, pk: P -> K, key: K): Option<P> {
    if rows == [] then None
    else if pk(rows[|rows| - 1]) == key then Some(rows[|rows| - 1])
    else LastRow(rows[..|rows| - 1], pk, key)
  }

  function FirstIndex<K(==)>(keys: seq<K>, key: K): (i: nat)
    requires key in keys
    ensures i < |keys| && keys[i] == key
  {
    if keys[0] == key then 0 else 1 + FirstIndex(keys[1..], key)
  }

  lemma {:induction false} FirstIndexIs<K>(keys: seq<K>, i: nat)
    requires i < |keys| && keys[i] !in keys[..i]
    ensures FirstIndex(keys, keys[i]) == i
  {
    if i > 0 {
      assert keys[0] in keys[..i];
      assert keys[1..][..i - 1] == keys[..i][1..];
      FirstIndexIs(keys[1..], i - 1);
    }
  }

  /** The distinct keys, each at the place of its first occurrence. */
  ghost predicate Deduplicated<K(!new)>(vals: seq<K>, keys: seq<K>) {
    && (forall k :: k in vals <==> k in keys)
    && (forall i, j :: 0 <= i < j < |vals| ==> vals[i] != vals[j])
    && (forall i, j :: 0 <= i < j < |vals| && vals[i] in keys && vals[j] in keys ==>
          FirstIndex(keys, vals[i]) < FirstIndex(keys, vals[j]))
  }

  method Deduplicate<C, K(==,!new)>(children: seq<C>, fk: C -> K) returns (vals: seq<K>)
    ensures Deduplicated(vals, Keys(children, fk))
  {
    var seen: set<K> := {};
    vals := [];
    ghost var keys := Keys(children, fk);
    for k := 0 to |children|
      invariant forall x :: x in seen <==> x in vals
      invariant forall x :: x in vals <==> x in keys[..k]
      invariant forall i, j :: 0 <= i < j < |vals| ==> vals[i] != vals[j]
      invariant forall i :: 0 <= i < |vals| ==> vals[i] in keys && FirstIndex(keys, vals[i]) < k
      invariant forall i, j :: 0 <= i < j < |vals| ==> FirstIndex(keys, vals[i]) < FirstIndex(keys, vals[j])
    {
      var key := fk(children[k]);
      assert key == keys[k] && keys[..k + 1] == keys[..k] + [key];
      if key !in seen {
        FirstIndexIs(keys, k);
        seen := seen + {key};
        vals := vals + [key];
      }
    }
    assert keys[..|children|] == keys;
  }

  function Keys<C, K>(children: seq<C>, fk: C -> K): seq<K> {
    seq(|children|, i requires 0 <= i < |children| => fk(children[i]))
  }

  /** The rows an IN query over the keys returns, in table order. */
  function WhereIn<P, K(==)>(rows: seq<P>, pk: P -> K, keys: seq<K>): seq<P> {
    if rows == [] then []
    else WhereIn(rows[..|rows| - 1], pk, keys) + if pk(rows[|rows| - 1]) in keys then [rows[|rows| - 1]] else []
  }

  lemma {:induction false} FetchedLast<P, K>(rows: seq<P>, pk: P -> K, keys: seq<K>, key: K)
    requires key in keys
    ensures LastRow(WhereIn(rows, pk, keys), pk, key) == LastRow(rows, pk, key)
  {
    if rows != [] {
      var front, last := rows[..|rows| - 1], rows[|rows| - 1];
      FetchedLast(front, pk, keys, key);
      if pk(last) in keys {
        var all := WhereIn(rows, pk, keys);
        assert all[|all| - 1] == last && all[..|all| - 1] == WhereIn(front, pk, keys);
      } else {
        assert WhereIn(rows, pk, keys) == WhereIn(front, pk, keys);
      }
    }
  }

  method BuildParentMap<P, K(==,!new)>(rows: seq<P>, pk: P -> K) returns (m: map<K, P>)
    ensures forall k :: (k in m <==> LastRow(rows, pk, k).Some?) && (k in m ==> LastRow(rows, pk, k) == Some(m[k]))
  {
    m := map[];
    assert rows[..0] == [];
    for i := 0 to |rows|
      invariant forall k :: (k in m <==> LastRow(rows[..i], pk, k).Some?) && (k in m ==> LastRow(rows[..i], pk, k) == Some(m[k]))
    {
      assert rows[..i + 1][..i] == rows[..i];
      m := m[pk(rows[i]) := rows[i]];
    }
    assert rows[..|rows|] == rows;
  }

  /** One IN query over the distinct keys finds, for every child, the very parent a lookup of its own would find. */
  method WithBelongsTo<P, C, K(==,!new)>(children: seq<C>, table: seq<P>, fk: C -> K, pk: P -> K)
    returns (result: seq<(C, Option<P>)>)
    ensures |result| == |children|
    ensures forall i :: 0 <= i < |children| ==> result[i] == (children[i], LastRow(table, pk, fk(children[i])))
  {
    if children == [] {
      return [];
    }
    var vals := Deduplicate(children, fk);
    var parents := WhereIn(table, pk, vals);
    var parentMap := BuildParentMap(parents, pk);
    result := [];
    for k := 0 to |children|
      invariant |result| == k
      invariant forall i :: 0 <= i < k ==> result[i] == (children[i], LastRow(table, pk, fk(children[i])))
    {
      var key := fk(children[k]);
      assert key == Keys(children, fk)[k];
      FetchedLast(table, pk, vals, key);
      result := result + [(children[k], if key in parentMap then Some(parentMap[key]) else None)];
    }
  }
}
