/** Synchronising and toggling many-to-many relations through a pivot table. */
module Pivots {
  import opened Values

  /** The unique columns of a pivot row: the owner's key and the related key. */
  datatype Link = Link(owner: SqlValue, related: SqlValue)

  /** What else a pivot row holds. Rows inserted without it get the defaults. */
  datatype Extra = Defaults | Given(columns: seq<(string, SqlValue)>)

  type Table = map<Link, Extra>

  function Related(t: Table, owner: SqlValue): set<SqlValue> {
    set l | l in t && l.owner == owner :: l.related
  }

  function Ids(ids: seq<SqlValue>): set<SqlValue> {
    set i | 0 <= i < |ids| :: ids[i]
  }

  predicate NoNulls(ids: seq<SqlValue>) {
    Null !in ids
  }

  /** Rows of other owners are the same in both tables. */
  ghost predicate OthersKept(t: Table, t': Table, owner: SqlValue) {
    forall l: Link :: l.owner != owner ==> (l in t <==> l in t') && (l in t ==> t[l] == t'[l])
  }

  /** Rows of the owner that are in both tables hold the same. */
  ghost predicate ExtrasKept(t: Table, t': Table, owner: SqlValue) {
    forall l: Link :: l.owner == owner && l in t && l in t' ==> t[l] == t'[l]
  }

  // ----- What the loops do -----

  /** INSERT … ON CONFLICT DO NOTHING, id by id. */
  function AttachAll(t: Table, owner: SqlValue, ids: seq<SqlValue>): Table
    decreases ids
  {
    if ids == [] then t
    else AttachAll(if Link(owner, ids[0]) in t then t else t[Link(owner, ids[0]) := Defaults], owner, ids[1..])
  }

  function Keep(t: Table, owner: SqlValue, ids: seq<SqlValue>): Table {
    map l | l in t && !(l.owner == owner && l.related !in ids) :: t[l]
  }

  function Synced(t: Table, owner: SqlValue, ids: seq<SqlValue>): Table {
    AttachAll(Keep(t, owner, ids), owner, ids)
  }

  /** The related keys among `ids` that can be read back as integers. */
  function ExistingInts(t: Table, owner: SqlValue, ids: seq<SqlValue>): set<int> {
    set l | l in t && l.owner == owner && l.related in ids && l.related.Integer? :: l.related.n
  }

  /** Ids known to exist are detached, all others attached; what exists was looked up once, before the loop. */
  function ToggleFrom(t: Table, owner: SqlValue, ids: seq<SqlValue>, existing: set<int>): Table
    decreases ids
  {
    if ids == [] then t
    else
      var l := Link(owner, ids[0]);
      var t' := if ids[0].Integer? && ids[0].n in existing then t - {l} else if l in t then t else t[l := Defaults];
      ToggleFrom(t', owner, ids[1..], existing)
  }

  function Toggled(t: Table, owner: SqlValue, ids: seq<SqlValue>): Table {
    ToggleFrom(t, owner, ids, ExistingInts(t, owner, ids))
  }

  class PivotTable {
    var rows: Table

    constructor ()
      ensures rows == map[]
    {
      rows := map[];
    }

    method Attach(owner: SqlValue, related: SqlValue) returns (affected: nat)
      modifies this
      ensures var l := Link(owner, related);
              if l in old(rows) then rows == old(rows) && affected == 0
              else rows == old(rows)[l := Defaults] && affected == 1
    {
      var l := Link(owner, related);
      if l in rows {
        return 0;
      }
      rows := rows[l := Defaults];
      return 1;
    }

    method AttachWith(owner: SqlValue, related: SqlValue, extra: seq<(string, SqlValue)>) returns (affected: nat)
      modifies this
      ensures var l := Link(owner, related);
              if l in old(rows) then rows == old(rows) && affected == 0
              else rows == old(rows)[l := Given(extra)] && affected == 1
    {
      var l := Link(owner, related);
      if l in rows {
        return 0;
      }
      rows := rows[l := Given(extra)];
      return 1;
    }

    method Detach(owner: SqlValue, related: SqlValue) returns (affected: nat)
      modifies this
      ensures rows == old(rows) - {Link(owner, related)}
      ensures affected == if Link(owner, related) in old(rows) then 1 else 0
    {
      affected := if Link(owner, related) in rows then 1 else 0;
      rows := rows - {Link(owner, related)};
    }

    method Sync(owner: SqlValue, ids: seq<SqlValue>)
      requires NoNulls(ids)
      modifies this
      ensures rows == Synced(old(rows), owner, ids)
    {
      if ids == [] {
        rows := map l | l in rows && l.owner != owner :: rows[l];
        return;
      }
      rows := Keep(rows, owner, ids);
      for k := 0 to |ids|
        invariant AttachAll(rows, owner, ids[k..]) == Synced(old(rows), owner, ids)
      {
        assert ids[k..][1..] == ids[k + 1..];
        var _ := Attach(owner, ids[k]);
      }
    }

    method Toggle(owner: SqlValue, ids: seq<SqlValue>)
      requires NoNulls(ids)
      modifies this
      ensures rows == Toggled(old(rows), owner, ids)
    {
      if ids == [] {
        return;
      }
      var existing := ExistingInts(rows, owner, ids);
      for k := 0 to |ids|
        invariant ToggleFrom(rows, owner, ids[k..], existing) == Toggled(old(rows), owner, ids)
      {
        assert ids[k..][1..] == ids[k + 1..];
        var alreadyExists := ids[k].Integer? && ids[k].n in existing;
        if alreadyExists {
          var _ := Detach(owner, ids[k]);
        } else {
          var _ := Attach(owner, ids[k]);
        }
      }
    }
  }

  // ----- Sync -----

  lemma {:induction false} AttachAllAdds(t: Table, owner: SqlValue, ids: seq<SqlValue>)
    ensures forall l: Link :: l in AttachAll(t, owner, ids) <==> l in t || (l.owner == owner && l.related in ids)
    ensures forall l: Link :: l in t ==> AttachAll(t, owner, ids)[l] == t[l]
    decreases ids
  {
    if ids != [] {
      var l := Link(owner, ids[0]);
      AttachAllAdds(if l in t then t else t[l := Defaults], owner, ids[1..]);
    }
  }

  /**
   * After a sync the owner is related to exactly the given ids; rows of other owners are untouched, kept rows keep
   * their extra columns, and new rows have the defaults.
   */
  lemma {:induction false} SyncIsExact(t: Table, owner: SqlValue, ids: seq<SqlValue>)
    ensures var t' := Synced(t, owner, ids);
            && (forall id :: Link(owner, id) in t' <==> id in ids)
            && OthersKept(t, t', owner) && ExtrasKept(t, t', owner)
  {
    AttachAllAdds(Keep(t, owner, ids), owner, ids);
  }

  lemma {:induction false} RelatedIs(t: Table, owner: SqlValue, ids: set<SqlValue>)
    requires forall id :: Link(owner, id) in t <==> id in ids
    ensures Related(t, owner) == ids
  {
    forall id | id in ids
      ensures id in Related(t, owner)
    {
      assert Link(owner, id) in t;
    }
  }

  /** The owner's related set is the set of the ids, and syncing again changes nothing. */
  lemma {:induction false} SyncIsIdempotent(t: Table, owner: SqlValue, ids: seq<SqlValue>)
    ensures Related(Synced(t, owner, ids), owner) == Ids(ids)
    ensures Synced(Synced(t, owner, ids), owner, ids) == Synced(t, owner, ids)
  {
    var t' := Synced(t, owner, ids);
    SyncIsExact(t, owner, ids);
    RelatedIs(t', owner, Ids(ids));
    assert Keep(t', owner, ids) == t';
    AttachNothing(t', owner, ids);
  }

  lemma {:induction false} AttachNothing(t: Table, owner: SqlValue, ids: seq<SqlValue>)
    requires forall id :: id in ids ==> Link(owner, id) in t
    ensures AttachAll(t, owner, ids) == t
    decreases ids
  {
    if ids != [] {
      assert ids[0] in ids;
      AttachNothing(t, owner, ids[1..]);
    }
  }

  // ----- Toggle -----

  predicate KnownIn(id: SqlValue, existing: set<int>) {
    id.Integer? && id.n in existing
  }

  lemma {:induction false} ToggleFromIs(t: Table, owner: SqlValue, ids: seq<SqlValue>, existing: set<int>)
    ensures var t' := ToggleFrom(t, owner, ids, existing);
            && (forall l: Link :: l in t' <==>
                  if l.owner == owner && l.related in ids then !KnownIn(l.related, existing) else l in t)
            && (forall l: Link :: l in t && l in t' ==> t'[l] == t[l])
    decreases ids
  {
    if ids != [] {
      var l := Link(owner, ids[0]);
      var t' := if KnownIn(ids[0], existing) then t - {l} else if l in t then t else t[l := Defaults];
      ToggleFromIs(t', owner, ids[1..], existing);
    }
  }

  lemma {:induction false} ExistingIs(t: Table, owner: SqlValue, ids: seq<SqlValue>, id: SqlValue)
    requires id in ids
    ensures KnownIn(id, ExistingInts(t, owner, ids)) <==> id.Integer? && Link(owner, id) in t
  {
    if id.Integer? && Link(owner, id) in t {
      assert Link(owner, id).related.n in ExistingInts(t, owner, ids);
    }
  }

  /**
   * Toggling flips exactly the given integer ids, however often each is given, and attaches every other id; rows
   * of other owners and rows that stay are untouched.
   */
  lemma {:induction false} ToggleFlips(t: Table, owner: SqlValue, ids: seq<SqlValue>)
    ensures var t' := Toggled(t, owner, ids);
            && (forall id :: Link(owner, id) in t' <==>
                  if id !in ids then Link(owner, id) in t
                  else if id.Integer? then Link(owner, id) !in t
                  else true)
            && OthersKept(t, t', owner) && ExtrasKept(t, t', owner)
  {
    var existing := ExistingInts(t, owner, ids);
    ToggleFromIs(t, owner, ids, existing);
    forall id | id in ids
      ensures KnownIn(id, existing) <==> id.Integer? && Link(owner, id) in t
    {
      ExistingIs(t, owner, ids, id);
    }
  }

  /** On integer ids the result is the symmetric difference with their set. */
  lemma {:induction false} ToggleIsSymmetricDifference(t: Table, owner: SqlValue, ids: seq<SqlValue>)
    requires forall id :: id in ids ==> id.Integer?
    ensures var before := Related(t, owner);
            Related(Toggled(t, owner, ids), owner) == (before - Ids(ids)) + (Ids(ids) - before)
  {
    var before := Related(t, owner);
    ToggleFlips(t, owner, ids);
    RelatedHas(t, owner);
    RelatedIs(Toggled(t, owner, ids), owner, (before - Ids(ids)) + (Ids(ids) - before));
  }

  lemma {:induction false} RelatedHas(t: Table, owner: SqlValue)
    ensures forall id :: id in Related(t, owner) <==> Link(owner, id) in t
  {
    forall id
      ensures id in Related(t, owner) <==> Link(owner, id) in t
    {
      if Link(owner, id) in t {
        assert Link(owner, id).related in Related(t, owner);
      }
    }
  }

  /** Toggling twice restores the related set exactly when every id that is not an integer was related before. */
  lemma {:induction false} ToggleTwiceIff(t: Table, owner: SqlValue, ids: seq<SqlValue>)
    ensures Related(Toggled(Toggled(t, owner, ids), owner, ids), owner) == Related(t, owner)
       <==> (forall id :: id in ids && !id.Integer? ==> id in Related(t, owner))
  {
    var once := Toggled(t, owner, ids);
    var twice := Toggled(once, owner, ids);
    ToggleFlips(t, owner, ids);
    ToggleFlips(once, owner, ids);
    RelatedHas(t, owner);
    RelatedHas(twice, owner);
    if Related(twice, owner) == Related(t, owner) {
      forall id | id in ids && !id.Integer?
        ensures id in Related(t, owner)
      {
        assert Link(owner, id) in twice;
      }
    } else {
      var id :| (id in Related(twice, owner)) != (id in Related(t, owner));
    }
  }
}
