/** Rolling back a batch of which some migrations are no longer registered. */
module Orphans {
  import opened Values
  import opened Migrations
  import opened MigrationStack

  /** The row is of the last batch, and its migration is registered. */
  predicate Due<S>(rows: seq<Row>, ms: seq<Migration<S>>, i: nat)
    requires i < |rows|
  {
    rows[i].batch == CurrentBatch(rows) > 0 && Find(ms, rows[i].name).Some?
  }

  /** Neither its own `down` nor that of a newer due row fails. */
  predicate Undone<S>(rows: seq<Row>, ms: seq<Migration<S>>, fails: set<string>, i: nat)
    requires i < |rows|
  {
    Due(rows, ms, i) && forall j :: i <= j < |rows| && Due(rows, ms, j) ==> rows[j].name !in fails
  }

  /** Those of the first `n` rows that are not undone, in their order. */
  function Remaining<S>(rows: seq<Row>, ms: seq<Migration<S>>, fails: set<string>, n: nat): seq<Row>
    requires n <= |rows|
  {
    if n == 0 then []
    else Remaining(rows, ms, fails, n - 1) + if Undone(rows, ms, fails, n - 1) then [] else [rows[n - 1]]
  }

  /** The schema after the `down`s of those of the first `n` rows that are undone, newest first. */
  function Lowered<S>(schema: S, rows: seq<Row>, ms: seq<Migration<S>>, fails: set<string>, n: nat): S
    requires n <= |rows|
  {
    if n == 0 then schema
    else if Undone(rows, ms, fails, n - 1) then Lowered(Find(ms, rows[n - 1].name).value.down(schema), rows, ms, fails, n - 1)
    else Lowered(schema, rows, ms, fails, n - 1)
  }

  /** No `down` of a due row among the rows from `n` on fails. */
  predicate Smooth<S>(rows: seq<Row>, ms: seq<Migration<S>>, fails: set<string>, n: nat) {
    forall j :: n <= j < |rows| && Due(rows, ms, j) ==> rows[j].name !in fails
  }

  lemma {:induction false} FindName<S>(ms: seq<Migration<S>>, name: string)
    requires Find(ms, name).Some?
    ensures Find(ms, name).value.name == name
  {
    if ms[0].name != name {
      FindName(ms[1..], name);
    }
  }

  lemma {:induction false} DeleteCat(a: seq<Row>, b: seq<Row>, name: string)
    ensures Delete(a + b, name) == Delete(a, name) + Delete(b, name)
  {
    hide Delete;
    DeleteFirst(a, name);
    if a == [] {
      assert a + b == b && [] + Delete(b, name) == Delete(b, name);
    } else {
      DeleteCat(a[1..], b, name);
      TailOf(a, b);
      DeleteFirst(a + b, name);
      Regroup([a[0]], Delete(a[1..], name), Delete(b, name));
    }
  }

  lemma {:induction false} DeleteFirst(rows: seq<Row>, name: string)
    ensures rows == [] ==> Delete(rows, name) == []
    ensures rows != [] && rows[0].name == name ==> Delete(rows, name) == Delete(rows[1..], name)
    ensures rows != [] && rows[0].name != name ==> Delete(rows, name) == [rows[0]] + Delete(rows[1..], name)
  {
    if rows != [] {
      assert [] + Delete(rows[1..], name) == Delete(rows[1..], name);
    }
  }

  lemma {:induction false} TailOf(a: seq<Row>, b: seq<Row>)
    requires a != []
    ensures (a + b)[1..] == a[1..] + b && (a + b)[0] == a[0]
  {
  }

  lemma {:induction false} Regroup(a: seq<Row>, b: seq<Row>, c: seq<Row>)
    ensures a + (b + c) == a + b + c
  {
  }

  lemma {:induction false} DeleteNone(rows: seq<Row>, name: string)
    requires forall i :: 0 <= i < |rows| ==> rows[i].name != name
    ensures Delete(rows, name) == rows
  {
    if rows != [] {
      DeleteNone(rows[1..], name);
    }
  }

  lemma {:induction false} DeleteMiddle(a: seq<Row>, row: Row, b: seq<Row>)
    requires forall i :: 0 <= i < |a| ==> a[i].name != row.name
    requires forall i :: 0 <= i < |b| ==> b[i].name != row.name
    ensures Delete(a + [row] + b, row.name) == a + b
  {
    DeleteCat(a + [row], b, row.name);
    DeleteLast(a, row);
    DeleteNone(b, row.name);
  }

  /** After a failing `down` nothing older is undone. */
  lemma {:induction false} NothingOlder<S>(schema: S, rows: seq<Row>, ms: seq<Migration<S>>, fails: set<string>, n: nat, k: nat)
    requires n <= k + 1 <= |rows| && Due(rows, ms, k) && rows[k].name in fails
    ensures Remaining(rows, ms, fails, n) == rows[..n] && Lowered(schema, rows, ms, fails, n) == schema
  {
    if n > 0 {
      NothingOlder(schema, rows, ms, fails, n - 1, k);
      assert !Undone(rows, ms, fails, n - 1);
      assert rows[..n] == rows[..n - 1] + [rows[n - 1]];
    }
  }

  /** The rows from `n` on that are not due. */
  function Kept<S>(rows: seq<Row>, ms: seq<Migration<S>>, n: nat): seq<Row>
    requires n <= |rows|
    decreases |rows| - n
  {
    if n == |rows| then [] else (if Due(rows, ms, n) then [] else [rows[n]]) + Kept(rows, ms, n + 1)
  }

  lemma {:induction false} KeptAreNewer<S>(rows: seq<Row>, ms: seq<Migration<S>>, n: nat)
    requires n <= |rows|
    ensures forall k :: 0 <= k < |Kept(rows, ms, n)| ==> exists i :: n <= i < |rows| && rows[i] == Kept(rows, ms, n)[k]
    decreases |rows| - n
  {
    if n == |rows| {
      assert Kept(rows, ms, n) == [];
    } else {
      var newer, kept := Kept(rows, ms, n + 1), Kept(rows, ms, n);
      KeptAreNewer(rows, ms, n + 1);
      forall k | 0 <= k < |kept|
        ensures exists i :: n <= i < |rows| && rows[i] == kept[k]
      {
        if Due(rows, ms, n) {
          assert kept[k] == newer[k];
        } else if k == 0 {
          assert rows[n] == kept[0];
        } else {
          assert kept[k] == newer[k - 1];
        }
      }
    }
  }

  lemma {:induction false} NamesLeft(rows: seq<Row>, n: nat, batch: nat)
    requires n < |rows|
    ensures BatchNames(rows[..n + 1], batch) == (if rows[n].batch == batch then [rows[n].name] else []) + BatchNames(rows[..n], batch)
  {
    BatchNamesSnoc(rows[..n], rows[n], batch);
    assert rows[..n + 1] == rows[..n] + [rows[n]];
  }

  lemma {:induction false} Others(rows: seq<Row>, n: nat, kept: seq<Row>)
    requires DistinctRows(rows) && n < |rows|
    requires forall k :: 0 <= k < |kept| ==> exists i :: n + 1 <= i < |rows| && rows[i] == kept[k]
    ensures forall i :: 0 <= i < n ==> rows[..n][i].name != rows[n].name
    ensures forall k :: 0 <= k < |kept| ==> kept[k].name != rows[n].name
  {
  }

  /** The loop, when the names of the first `n` rows of the batch are still to come. */
  lemma {:induction false} RollbackFrom<S>(db: Tables<S>, rows: seq<Row>, ms: seq<Migration<S>>, fails: set<string>, n: nat)
    requires DistinctRows(rows) && n <= |rows| && Smooth(rows, ms, fails, n) && CurrentBatch(rows) > 0
    requires db.rows == rows[..n] + Kept(rows, ms, n)
    ensures RollbackOver(db, ms, BatchNames(rows[..n], CurrentBatch(rows)), fails)
         == Outcome(Tables(Remaining(rows, ms, fails, n) + Kept(rows, ms, n), db.nextId, Lowered(db.schema, rows, ms, fails, n)),
                    Smooth(rows, ms, fails, 0))
    decreases n
  {
    hide CurrentBatch, Find, BatchNames, Delete, DistinctRows;
    if n == 0 {
      NoNames(CurrentBatch(rows));
      assert db.rows == Kept(rows, ms, 0);
    } else {
      var row, kept := rows[n - 1], Kept(rows, ms, n);
      NamesLeft(rows, n - 1, CurrentBatch(rows));
      assert rows[..n] == rows[..n - 1] + [row];
      assert Kept(rows, ms, n - 1) == (if Due(rows, ms, n - 1) then [] else [row]) + kept;
      if !Due(rows, ms, n - 1) {
        PassOver(db, rows, ms, fails, n);
        assert db.rows == rows[..n - 1] + Kept(rows, ms, n - 1);
        RollbackFrom(db, rows, ms, fails, n - 1);
      } else {
        FindName(ms, row.name);
        if row.name in fails {
          NothingOlder(db.schema, rows, ms, fails, n, n - 1);
        } else {
          UndoneNow(rows, ms, fails, n - 1);
          var next := db.(rows := rows[..n - 1] + kept, schema := Find(ms, row.name).value.down(db.schema));
          UndoOne(db, rows, ms, fails, n, next);
          RollbackFrom(next, rows, ms, fails, n - 1);
        }
      }
    }
  }

  /** A due row whose `down` does not fail is undone and deleted. */
  lemma {:induction false} UndoOne<S>(db: Tables<S>, rows: seq<Row>, ms: seq<Migration<S>>, fails: set<string>, n: nat, next: Tables<S>)
    requires DistinctRows(rows) && 0 < n <= |rows| && Due(rows, ms, n - 1) && rows[n - 1].name !in fails
    requires db.rows == rows[..n] + Kept(rows, ms, n)
    requires next == db.(rows := rows[..n - 1] + Kept(rows, ms, n), schema := Find(ms, rows[n - 1].name).value.down(db.schema))
    ensures var b := CurrentBatch(rows);
            RollbackOver(db, ms, BatchNames(rows[..n], b), fails) == RollbackOver(next, ms, BatchNames(rows[..n - 1], b), fails)
  {
    var row, kept, b := rows[n - 1], Kept(rows, ms, n), CurrentBatch(rows);
    NamesLeft(rows, n - 1, b);
    KeptAreNewer(rows, ms, n);
    Others(rows, n - 1, kept);
    DeleteMiddle(rows[..n - 1], row, kept);
    FindName(ms, row.name);
    assert rows[..n] == rows[..n - 1] + [row];
    var rest := BatchNames(rows[..n - 1], b);
    hide BatchNames, CurrentBatch, Delete, Kept, DistinctRows;
    var names := [row.name] + rest;
    assert names[0] == row.name && names[1..] == rest;
  }

  lemma {:induction false} NoNames(batch: nat)
    ensures BatchNames([], batch) == []
  {
  }

  lemma {:induction false} UndoneNow<S>(rows: seq<Row>, ms: seq<Migration<S>>, fails: set<string>, i: nat)
    requires i < |rows| && Due(rows, ms, i) && rows[i].name !in fails && Smooth(rows, ms, fails, i + 1)
    ensures Undone(rows, ms, fails, i)
  {
  }

  /** A row that is not due takes no part. */
  lemma {:induction false} PassOver<S>(db: Tables<S>, rows: seq<Row>, ms: seq<Migration<S>>, fails: set<string>, n: nat)
    requires 0 < n <= |rows| && !Due(rows, ms, n - 1) && CurrentBatch(rows) > 0
    ensures var b := CurrentBatch(rows);
            RollbackOver(db, ms, BatchNames(rows[..n], b), fails) == RollbackOver(db, ms, BatchNames(rows[..n - 1], b), fails)
  {
    var b := CurrentBatch(rows);
    NamesLeft(rows, n - 1, b);
    hide BatchNames, CurrentBatch;
    var rest := BatchNames(rows[..n - 1], b);
    if rows[n - 1].batch != b {
      assert [] + rest == rest;
    } else {
      var names := [rows[n - 1].name] + rest;
      assert names[0] == rows[n - 1].name && names[1..] == rest;
      assert Find(ms, names[0]).None?;
      assert RollbackOver(db, ms, names, fails) == RollbackOver(db, ms, rest, fails);
    }
  }

  /**
   * Whatever is registered, a rollback removes exactly the registered rows of the last batch that are newer than the
   * newest one whose `down` fails, and lowers the schema by exactly those, newest first. All other rows stay.
   */
  lemma {:induction false} RollbackUndoesRegistered<S>(db: Tables<S>, ms: seq<Migration<S>>, fails: set<string>)
    requires DistinctRows(db.rows)
    ensures RollbackLast(db, ms, fails)
         == Outcome(Tables(Remaining(db.rows, ms, fails, |db.rows|), db.nextId,
                           Lowered(db.schema, db.rows, ms, fails, |db.rows|)),
                    Smooth(db.rows, ms, fails, 0))
  {
    var rows, n := db.rows, |db.rows|;
    assert rows[..n] == rows;
    if CurrentBatch(rows) == 0 {
      NoneDue(db.schema, rows, ms, fails, n);
    } else {
      hide CurrentBatch, BatchNames, RollbackOver;
      assert Kept(rows, ms, n) == [] && rows + [] == rows;
      RollbackFrom(db, rows, ms, fails, n);
      assert Remaining(rows, ms, fails, n) + [] == Remaining(rows, ms, fails, n);
    }
  }

  lemma {:induction false} NoneDue<S>(schema: S, rows: seq<Row>, ms: seq<Migration<S>>, fails: set<string>, n: nat)
    requires n <= |rows| && CurrentBatch(rows) == 0
    ensures Remaining(rows, ms, fails, n) == rows[..n] && Lowered(schema, rows, ms, fails, n) == schema
  {
    if n > 0 {
      NoneDue(schema, rows, ms, fails, n - 1);
      assert rows[..n] == rows[..n - 1] + [rows[n - 1]];
    }
  }

  lemma {:induction false} RemainingHas<S>(rows: seq<Row>, ms: seq<Migration<S>>, fails: set<string>, n: nat, row: Row)
    requires n <= |rows|
    ensures row in Remaining(rows, ms, fails, n) <==> exists i :: 0 <= i < n && rows[i] == row && !Undone(rows, ms, fails, i)
  {
    hide Undone;
    if n > 0 {
      RemainingHas(rows, ms, fails, n - 1, row);
      if row == rows[n - 1] && !Undone(rows, ms, fails, n - 1) {
        assert row in Remaining(rows, ms, fails, n);
      }
    }
  }

  /** The row of a migration that is no longer registered outlives every rollback, as do the rows of older batches. */
  lemma {:induction false} UnregisteredStays<S>(db: Tables<S>, ms: seq<Migration<S>>, fails: set<string>, row: Row)
    requires DistinctRows(db.rows) && row in db.rows
    requires Find(ms, row.name).None? || row.batch != CurrentBatch(db.rows)
    ensures row in RollbackLast(db, ms, fails).db.rows
  {
    hide RollbackLast, CurrentBatch, Find, DistinctRows;
    RollbackUndoesRegistered(db, ms, fails);
    var i :| 0 <= i < |db.rows| && db.rows[i] == row;
    assert !Undone(db.rows, ms, fails, i);
    RemainingHas(db.rows, ms, fails, |db.rows|, row);
  }

  // ----- A batch that cannot be emptied -----

  lemma {:induction false} BatchIsMost(rows: seq<Row>)
    ensures forall i :: 0 <= i < |rows| ==> rows[i].batch <= CurrentBatch(rows)
    ensures CurrentBatch(rows) > 0 ==> exists i :: 0 <= i < |rows| && rows[i].batch == CurrentBatch(rows)
  {
    if rows != [] {
      BatchIsMost(rows[1..]);
      if CurrentBatch(rows) == rows[0].batch {
      } else {
        var i :| 0 <= i < |rows[1..]| && rows[1..][i].batch == CurrentBatch(rows[1..]);
        assert rows[i + 1].batch == CurrentBatch(rows);
      }
    }
  }

  lemma {:induction false} SameBatch(rows: seq<Row>, rest: seq<Row>, row: Row)
    requires forall r :: r in rest ==> r in rows
    requires row in rest && row.batch == CurrentBatch(rows) > 0
    ensures CurrentBatch(rest) == CurrentBatch(rows)
  {
    hide CurrentBatch;
    BatchIsMost(rows);
    BatchIsMost(rest);
    if CurrentBatch(rest) > 0 {
      var i :| 0 <= i < |rest| && rest[i].batch == CurrentBatch(rest);
      assert rest[i] in rows;
    }
  }

  lemma {:induction false} RemainingIsPart<S>(rows: seq<Row>, ms: seq<Migration<S>>, fails: set<string>, n: nat)
    requires DistinctRows(rows) && n <= |rows|
    ensures DistinctRows(Remaining(rows, ms, fails, n))
    ensures forall r :: r in Remaining(rows, ms, fails, n) ==> r in rows[..n]
  {
    hide Undone;
    if n > 0 {
      RemainingIsPart(rows, ms, fails, n - 1);
      assert rows[..n] == rows[..n - 1] + [rows[n - 1]];
      forall r | r in Remaining(rows, ms, fails, n - 1)
        ensures r.name != rows[n - 1].name
      {
        assert r in rows[..n - 1];
      }
    }
  }

  lemma {:induction false} NoneUndone<S>(schema: S, rows: seq<Row>, ms: seq<Migration<S>>, fails: set<string>, n: nat)
    requires n <= |rows| && forall i :: 0 <= i < |rows| ==> !Due(rows, ms, i)
    ensures Remaining(rows, ms, fails, n) == rows[..n] && Lowered(schema, rows, ms, fails, n) == schema
  {
    if n > 0 {
      NoneUndone(schema, rows, ms, fails, n - 1);
      assert !Due(rows, ms, n - 1);
      assert rows[..n] == rows[..n - 1] + [rows[n - 1]];
    }
  }

  /**
   * A migration of the last batch that is no longer registered stops all further rollbacks: once the rest of its batch
   * is undone, every rollback ends well and changes nothing, and older batches are never reached.
   */
  lemma {:induction false} OrphanBlocks<S>(db: Tables<S>, ms: seq<Migration<S>>, row: Row, fails: set<string>)
    requires DistinctRows(db.rows) && row in db.rows && Find(ms, row.name).None? && row.batch == CurrentBatch(db.rows) > 0
    ensures var t := RollbackLast(db, ms, {}); t.ok && RollbackLast(t.db, ms, fails) == Outcome(t.db, true)
  {
    hide RollbackLast, CurrentBatch, Find, DistinctRows, Remaining, Lowered;
    var t := RollbackLast(db, ms, {});
    RollbackUndoesRegistered(db, ms, {});
    RemainingIsPart(db.rows, ms, {}, |db.rows|);
    assert db.rows[..|db.rows|] == db.rows;
    UnregisteredStays(db, ms, {}, row);
    SameBatch(db.rows, t.db.rows, row);
    forall i | 0 <= i < |t.db.rows|
      ensures !Due(t.db.rows, ms, i)
    {
      RemainingHas(db.rows, ms, {}, |db.rows|, t.db.rows[i]);
      var j :| 0 <= j < |db.rows| && db.rows[j] == t.db.rows[i] && !Undone(db.rows, ms, {}, j);
    }
    RollbackUndoesRegistered(t.db, ms, fails);
    NoneUndone(t.db.schema, t.db.rows, ms, fails, |t.db.rows|);
    assert t.db.rows[..|t.db.rows|] == t.db.rows;
  }
}
