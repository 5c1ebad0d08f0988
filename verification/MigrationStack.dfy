/** The `_migrations` table is a stack of batches, and the schema is what it records. */
module MigrationStack {
  import opened Values
  import opened Migrations

  ghost predicate DistinctNames<S>(ms: seq<Migration<S>>) {
    forall i, j :: 0 <= i < j < |ms| ==> ms[i].name != ms[j].name
  }

  ghost predicate Inverts<S(!new)>(m: Migration<S>) {
    forall s :: m.down(m.up(s)) == s
  }

  /** Registered names are distinct, and every `down` undoes its `up`. */
  ghost predicate Sound<S(!new)>(ms: seq<Migration<S>>) {
    DistinctNames(ms) && forall i :: 0 <= i < |ms| ==> Inverts(ms[i])
  }

  /** The schema after the recorded `up`s, oldest row first. */
  function Replay<S>(ms: seq<Migration<S>>, rows: seq<Row>, base: S): S {
    if rows == [] then base
    else
      var before := Replay(ms, rows[..|rows| - 1], base);
      match Find(ms, rows[|rows| - 1].name)
      case None => before
      case Some(m) => m.up(before)
  }

  ghost predicate DistinctRows(rows: seq<Row>) {
    forall i, j :: 0 <= i < j < |rows| ==> rows[i].name != rows[j].name
  }

  /** Ids ascend, and the next one is above them all. */
  ghost predicate IdsAscend(rows: seq<Row>, nextId: nat) {
    && (forall i, j :: 0 <= i < j < |rows| ==> rows[i].id < rows[j].id)
    && (forall i :: 0 <= i < |rows| ==> rows[i].id < nextId)
  }

  /** Batches start at 1, never decrease with the id, and skip no number. */
  ghost predicate BatchesClimb(rows: seq<Row>) {
    && (rows != [] ==> rows[0].batch == 1)
    && (forall i, j :: 0 <= i < j < |rows| && j == i + 1 ==> rows[i].batch <= rows[j].batch <= rows[i].batch + 1)
  }

  ghost predicate NoOrphans<S>(ms: seq<Migration<S>>, rows: seq<Row>) {
    forall i :: 0 <= i < |rows| ==> Find(ms, rows[i].name).Some?
  }

  ghost predicate Stack<S>(db: Tables<S>, ms: seq<Migration<S>>, base: S) {
    && DistinctRows(db.rows) && IdsAscend(db.rows, db.nextId) && BatchesClimb(db.rows) && NoOrphans(ms, db.rows)
    && db.schema == Replay(ms, db.rows, base)
  }

  // ----- Batches -----

  lemma {:induction false} BatchesOrdered(rows: seq<Row>, i: nat, j: nat)
    requires BatchesClimb(rows) && i <= j < |rows|
    ensures 1 <= rows[i].batch <= rows[j].batch
    decreases j
  {
    if i < j {
      BatchesOrdered(rows, i, j - 1);
    } else if i > 0 {
      BatchesOrdered(rows, i - 1, j - 1);
    }
  }

  lemma {:induction false} MaxBatch(rows: seq<Row>, top: nat)
    requires forall i :: 0 <= i < |rows| ==> rows[i].batch <= top
    requires rows != [] && rows[|rows| - 1].batch == top
    ensures CurrentBatch(rows) == top
  {
    if |rows| > 1 {
      MaxBatch(rows[1..], top);
    } else {
      assert CurrentBatch(rows[1..]) == 0;
    }
  }

  /** The current batch is the batch of the newest row. */
  lemma {:induction false} LastBatch(rows: seq<Row>)
    requires BatchesClimb(rows) && rows != []
    ensures CurrentBatch(rows) == rows[|rows| - 1].batch >= 1
  {
    forall i | 0 <= i < |rows|
      ensures 1 <= rows[i].batch <= rows[|rows| - 1].batch
    {
      BatchesOrdered(rows, i, |rows| - 1);
    }
    MaxBatch(rows, rows[|rows| - 1].batch);
  }

  /** The batches in use are exactly 1 to the current one. */
  lemma {:induction false} BatchesAreContiguous(rows: seq<Row>, b: nat)
    requires BatchesClimb(rows)
    ensures (exists i :: 0 <= i < |rows| && rows[i].batch == b) <==> 1 <= b <= CurrentBatch(rows)
  {
    if rows != [] {
      LastBatch(rows);
      forall i | 0 <= i < |rows|
        ensures 1 <= rows[i].batch <= CurrentBatch(rows)
      {
        BatchesOrdered(rows, i, |rows| - 1);
      }
      if 1 <= b <= CurrentBatch(rows) {
        var i := SomeRowOf(rows, b);
      }
    }
  }

  lemma {:induction false} SomeRowOf(rows: seq<Row>, b: nat) returns (i: nat)
    requires BatchesClimb(rows) && rows != [] && 1 <= b <= rows[|rows| - 1].batch
    ensures i < |rows| && rows[i].batch == b
  {
    if rows[|rows| - 1].batch == b {
      i := |rows| - 1;
    } else {
      var front := rows[..|rows| - 1];
      assert |rows| > 1 && rows[|rows| - 2].batch <= rows[|rows| - 1].batch <= rows[|rows| - 2].batch + 1;
      assert front[|front| - 1] == rows[|rows| - 2];
      i := SomeRowOf(front, b);
    }
  }

  // ----- What a run does -----

  function Pending<S>(ms: seq<Migration<S>>, applied: seq<string>): seq<Migration<S>> {
    if ms == [] then []
    else (if ms[0].name in applied then [] else [ms[0]]) + Pending(ms[1..], applied)
  }

  /** How many of the migrations come before the first that fails. */
  function BeforeFailure<S>(pend: seq<Migration<S>>, fails: set<string>): (n: nat)
    ensures n <= |pend|
  {
    if pend == [] || pend[0].name in fails then 0 else 1 + BeforeFailure(pend[1..], fails)
  }

  function Stamped<S>(pend: seq<Migration<S>>, nextId: nat, batch: nat): seq<Row> {
    seq(|pend|, i requires 0 <= i < |pend| => Row(nextId + i, pend[i].name, batch))
  }

  function Ups<S>(pend: seq<Migration<S>>, schema: S): S
    decreases pend
  {
    if pend == [] then schema else Ups(pend[1..], pend[0].up(schema))
  }

  /** The pending migrations before the first that fails, applied and recorded as one batch. */
  function Applied<S>(db: Tables<S>, pend: seq<Migration<S>>, batch: nat, n: nat): Tables<S>
    requires n <= |pend|
  {
    Tables(db.rows + Stamped(pend[..n], db.nextId, batch), db.nextId + n, Ups(pend[..n], db.schema))
  }

  lemma {:induction false} AppliedNext<S>(db: Tables<S>, pend: seq<Migration<S>>, batch: nat, n: nat)
    requires 0 < n <= |pend|
    ensures var next := Tables(db.rows + [Row(db.nextId, pend[0].name, batch)], db.nextId + 1, pend[0].up(db.schema));
            Applied(db, pend, batch, n) == Applied(next, pend[1..], batch, n - 1)
  {
    var front := pend[1..][..n - 1];
    assert pend[..n][1..] == front;
    assert Stamped(pend[..n], db.nextId, batch)
        == [Row(db.nextId, pend[0].name, batch)] + Stamped(front, db.nextId + 1, batch);
  }

  /** A run applies the pending migrations, in registration order and as one batch, up to the first that fails. */
  lemma {:induction false} RunAppends<S>(db: Tables<S>, ms: seq<Migration<S>>, applied: seq<string>, batch: nat,
                                         fails: set<string>)
    requires DistinctNames(ms)
    requires forall i :: 0 <= i < |ms| && ms[i].name in Names(db.rows) ==> ms[i].name in applied
    ensures var pend := Pending(ms, applied);
            RunFrom(db, ms, applied, batch, fails)
            == Outcome(Applied(db, pend, batch, BeforeFailure(pend, fails)), BeforeFailure(pend, fails) == |pend|)
    decreases ms
  {
    var pend := Pending(ms, applied);
    if ms == [] || (ms[0].name !in applied && ms[0].name in fails) {
      assert Stamped(pend[..0], db.nextId, batch) == [];
      assert db.rows + [] == db.rows;
    } else if ms[0].name in applied {
      assert pend == Pending(ms[1..], applied);
      RunAppends(db, ms[1..], applied, batch, fails);
    } else {
      var m, rest := ms[0], Pending(ms[1..], applied);
      var row := Row(db.nextId, m.name, batch);
      var next := Tables(db.rows + [row], db.nextId + 1, m.up(db.schema));
      assert pend == [m] + rest && pend[1..] == rest;
      NamesSnoc(db.rows, row);
      RunAppends(next, ms[1..], applied, batch, fails);
      AppliedNext(db, pend, batch, BeforeFailure(pend, fails));
    }
  }

  lemma {:induction false} NamesSnoc(rows: seq<Row>, row: Row)
    ensures Names(rows + [row]) == Names(rows) + [row.name]
  {
  }

  // ----- A run keeps the stack -----

  lemma {:induction false} FindRegistered<S>(ms: seq<Migration<S>>, i: nat)
    requires DistinctNames(ms) && i < |ms|
    ensures Find(ms, ms[i].name) == Some(ms[i])
  {
    if i > 0 {
      FindRegistered(ms[1..], i - 1);
    }
  }

  lemma {:induction false} PendingOf<S>(ms: seq<Migration<S>>, applied: seq<string>)
    requires DistinctNames(ms)
    ensures DistinctNames(Pending(ms, applied))
    ensures forall m :: m in Pending(ms, applied) <==> m in ms && m.name !in applied
  {
    if ms != [] {
      var rest := Pending(ms[1..], applied);
      PendingOf(ms[1..], applied);
      assert ms == [ms[0]] + ms[1..];
      forall m | m in rest
        ensures m.name != ms[0].name
      {
        assert m in ms[1..];
      }
      PendingIs(ms, applied);
      hide Pending;
    }
  }

  lemma {:induction false} PendingIs<S>(ms: seq<Migration<S>>, applied: seq<string>)
    requires ms != []
    ensures Pending(ms, applied) == (if ms[0].name in applied then [] else [ms[0]]) + Pending(ms[1..], applied)
  {
  }

  /** A batch number that the next row may carry. */
  predicate FitsNext(rows: seq<Row>, batch: nat) {
    if rows == [] then batch == 1 else rows[|rows| - 1].batch <= batch <= rows[|rows| - 1].batch + 1
  }

  lemma {:induction false} StackPush<S(!new)>(db: Tables<S>, ms: seq<Migration<S>>, base: S, m: Migration<S>, batch: nat)
    requires Stack(db, ms, base) && Find(ms, m.name) == Some(m) && m.name !in Names(db.rows) && FitsNext(db.rows, batch)
    ensures var row := Row(db.nextId, m.name, batch);
            Stack(Tables(db.rows + [row], db.nextId + 1, m.up(db.schema)), ms, base)
  {
    var row := Row(db.nextId, m.name, batch);
    var rows := db.rows + [row];
    assert rows[..|rows| - 1] == db.rows;
    forall i | 0 <= i < |db.rows|
      ensures rows[i].name != row.name
    {
      assert Names(db.rows)[i] == rows[i].name;
    }
  }

  lemma {:induction false} StackApplied<S(!new)>(db: Tables<S>, ms: seq<Migration<S>>, base: S, pend: seq<Migration<S>>,
                                                 batch: nat, n: nat)
    requires Stack(db, ms, base) && DistinctNames(pend) && n <= |pend| && FitsNext(db.rows, batch)
    requires forall i :: 0 <= i < |pend| ==> Find(ms, pend[i].name) == Some(pend[i]) && pend[i].name !in Names(db.rows)
    ensures Stack(Applied(db, pend, batch, n), ms, base)
    decreases n
  {
    if n == 0 {
      assert Stamped(pend[..0], db.nextId, batch) == [] && db.rows + [] == db.rows;
    } else {
      var row := Row(db.nextId, pend[0].name, batch);
      var next := Tables(db.rows + [row], db.nextId + 1, pend[0].up(db.schema));
      StackPush(db, ms, base, pend[0], batch);
      NamesSnoc(db.rows, row);
      StackApplied(next, ms, base, pend[1..], batch, n - 1);
      AppliedNext(db, pend, batch, n);
    }
  }

  lemma {:induction false} PendingRegistered<S>(ms: seq<Migration<S>>, applied: seq<string>)
    requires DistinctNames(ms)
    ensures var pend := Pending(ms, applied);
            forall i :: 0 <= i < |pend| ==> Find(ms, pend[i].name) == Some(pend[i]) && pend[i].name !in applied
  {
    var pend := Pending(ms, applied);
    PendingOf(ms, applied);
    forall i | 0 <= i < |pend|
      ensures Find(ms, pend[i].name) == Some(pend[i]) && pend[i].name !in applied
    {
      assert pend[i] in pend;
      var j :| 0 <= j < |ms| && ms[j] == pend[i];
      FindRegistered(ms, j);
    }
  }

  lemma {:induction false} NextBatchFits(rows: seq<Row>)
    requires BatchesClimb(rows)
    ensures FitsNext(rows, CurrentBatch(rows) + 1)
  {
    if rows != [] {
      LastBatch(rows);
    }
  }

  lemma {:induction false} RunIs<S(!new)>(db: Tables<S>, ms: seq<Migration<S>>, fails: set<string>)
    requires DistinctNames(ms)
    ensures var pend := Pending(ms, Names(db.rows));
            RunAll(db, ms, fails)
            == Outcome(Applied(db, pend, CurrentBatch(db.rows) + 1, BeforeFailure(pend, fails)),
                       BeforeFailure(pend, fails) == |pend|)
  {
    RunAppends(db, ms, Names(db.rows), CurrentBatch(db.rows) + 1, fails);
  }

  /** Whether or not it stops at a failing `up`, a run keeps the stack. */
  lemma {:induction false} RunKeepsStack<S(!new)>(db: Tables<S>, ms: seq<Migration<S>>, base: S, fails: set<string>)
    requires DistinctNames(ms) && Stack(db, ms, base)
    ensures Stack(RunAll(db, ms, fails).db, ms, base)
  {
    hide RunAll, Pending, Applied, BeforeFailure, CurrentBatch, Find, Replay, IdsAscend, DistinctRows;
    var pend := Pending(ms, Names(db.rows));
    RunIs(db, ms, fails);
    PendingOf(ms, Names(db.rows));
    PendingRegistered(ms, Names(db.rows));
    NextBatchFits(db.rows);
    StackApplied(db, ms, base, pend, CurrentBatch(db.rows) + 1, BeforeFailure(pend, fails));
  }

  // ----- What a rollback does -----

  lemma {:induction false} BatchNamesSnoc(rows: seq<Row>, row: Row, b: nat)
    ensures BatchNames(rows + [row], b) == (if row.batch == b then [row.name] else []) + BatchNames(rows, b)
  {
    if rows == [] {
      assert [] + [row] == [row] && [row][1..] == [];
    } else {
      BatchNamesSnoc(rows[1..], row, b);
      assert (rows + [row])[1..] == rows[1..] + [row];
    }
  }

  lemma {:induction false} NoBatchNames(rows: seq<Row>, b: nat)
    requires forall i :: 0 <= i < |rows| ==> rows[i].batch != b
    ensures BatchNames(rows, b) == []
  {
    if rows != [] {
      NoBatchNames(rows[1..], b);
    }
  }

  lemma {:induction false} DeleteLast(rows: seq<Row>, row: Row)
    requires forall i :: 0 <= i < |rows| ==> rows[i].name != row.name
    ensures Delete(rows + [row], row.name) == rows
  {
    if rows == [] {
      assert [] + [row] == [row] && Delete([row], row.name) == Delete([row][1..], row.name) == [];
    } else {
      DeleteLast(rows[1..], row);
      assert (rows + [row])[1..] == rows[1..] + [row];
    }
  }

  /** How many rows are left when the newest ones of a batch are undone up to the first failing `down`. */
  function Left(rows: seq<Row>, batch: nat, fails: set<string>): (n: nat)
    ensures n <= |rows|
  {
    if rows == [] || rows[|rows| - 1].batch != batch || rows[|rows| - 1].name in fails then |rows|
    else Left(rows[..|rows| - 1], batch, fails)
  }

  function Popped<S>(db: Tables<S>, ms: seq<Migration<S>>, base: S, n: nat): Tables<S>
    requires n <= |db.rows|
  {
    Tables(db.rows[..n], db.nextId, Replay(ms, db.rows[..n], base))
  }

  lemma {:induction false} StackPop<S(!new)>(db: Tables<S>, ms: seq<Migration<S>>, base: S, n: nat)
    requires Stack(db, ms, base) && n <= |db.rows|
    ensures Stack(Popped(db, ms, base, n), ms, base)
  {
    var t := Popped(db, ms, base, n);
    assert forall i :: 0 <= i < n ==> t.rows[i] == db.rows[i];
  }

  lemma {:induction false} FindSound<S(!new)>(ms: seq<Migration<S>>, name: string)
    requires Sound(ms) && Find(ms, name).Some?
    ensures Inverts(Find(ms, name).value) && Find(ms, name).value.name == name
  {
    if ms[0].name != name {
      FindSound(ms[1..], name);
    }
  }

  lemma {:induction false} PopOne<S(!new)>(db: Tables<S>, ms: seq<Migration<S>>, base: S, rest: seq<Row>, last: Row, fails: set<string>)
    requires Sound(ms) && Stack(db, ms, base) && db.rows == rest + [last] && last.name !in fails
    ensures RollbackOver(db, ms, BatchNames(db.rows, last.batch), fails)
         == RollbackOver(Popped(db, ms, base, |rest|), ms, BatchNames(rest, last.batch), fails)
  {
    var names := BatchNames(rest, last.batch);
    BatchNamesSnoc(rest, last, last.batch);
    assert ([last.name] + names)[1..] == names;
    FindSound(ms, last.name);
    DeleteLast(rest, last);
    assert db.rows[..|db.rows| - 1] == rest;
  }

  lemma {:induction false} PopFails<S(!new)>(db: Tables<S>, ms: seq<Migration<S>>, base: S, rest: seq<Row>, last: Row, fails: set<string>)
    requires Sound(ms) && Stack(db, ms, base) && db.rows == rest + [last] && last.name in fails
    ensures RollbackOver(db, ms, BatchNames(db.rows, last.batch), fails) == Outcome(db, false)
  {
    BatchNamesSnoc(rest, last, last.batch);
    FindSound(ms, last.name);
  }

  /** A rollback undoes the newest rows of the batch, newest first, up to the first failing `down`. */
  lemma {:induction false} RollbackPops<S(!new)>(db: Tables<S>, ms: seq<Migration<S>>, base: S, batch: nat, fails: set<string>)
    requires Sound(ms) && Stack(db, ms, base)
    requires db.rows != [] ==> db.rows[|db.rows| - 1].batch <= batch
    ensures var n := Left(db.rows, batch, fails);
            RollbackOver(db, ms, BatchNames(db.rows, batch), fails)
            == Outcome(Popped(db, ms, base, n), n == 0 || db.rows[n - 1].batch != batch)
    decreases |db.rows|
  {
    hide Sound, Stack, Popped, RollbackOver, BatchNames, Left;
    LeftIs(db.rows, batch, fails);
    if PopsNone(db.rows, batch, fails) {
      PopStops(db, ms, base, batch, fails);
    } else {
      var last, rest := db.rows[|db.rows| - 1], db.rows[..|db.rows| - 1];
      PopOne(db, ms, base, rest, last, fails);
      StackPop(db, ms, base, |rest|);
      if |rest| > 0 {
        BatchBelow(db, ms, base);
      }
      PoppedIs(db, ms, base, |rest|, Left(rest, batch, fails));
      RollbackPops(Popped(db, ms, base, |rest|), ms, base, batch, fails);
    }
  }

  /** The newest row is not of the batch, or its `down` fails. */
  predicate PopsNone(rows: seq<Row>, batch: nat, fails: set<string>) {
    rows == [] || rows[|rows| - 1].batch != batch || rows[|rows| - 1].name in fails
  }

  lemma {:induction false} LeftIs(rows: seq<Row>, batch: nat, fails: set<string>)
    ensures Left(rows, batch, fails)
         == if PopsNone(rows, batch, fails) then |rows| else Left(rows[..|rows| - 1], batch, fails)
  {
  }

  lemma {:induction false} PoppedIs<S>(db: Tables<S>, ms: seq<Migration<S>>, base: S, n: nat, k: nat)
    requires k <= n <= |db.rows|
    ensures var t := Popped(db, ms, base, n);
            t.rows == db.rows[..n] && Popped(t, ms, base, k) == Popped(db, ms, base, k)
  {
    hide Replay;
    assert db.rows[..n][..k] == db.rows[..k];
  }

  lemma {:induction false} BatchBelow<S>(db: Tables<S>, ms: seq<Migration<S>>, base: S)
    requires Stack(db, ms, base) && |db.rows| > 1
    ensures db.rows[|db.rows| - 2].batch <= db.rows[|db.rows| - 1].batch
  {
    BatchesOrdered(db.rows, |db.rows| - 2, |db.rows| - 1);
  }

  lemma {:induction false} PopStops<S(!new)>(db: Tables<S>, ms: seq<Migration<S>>, base: S, batch: nat, fails: set<string>)
    requires Sound(ms) && Stack(db, ms, base) && PopsNone(db.rows, batch, fails)
    requires db.rows != [] ==> db.rows[|db.rows| - 1].batch <= batch
    ensures var n := |db.rows|;
            RollbackOver(db, ms, BatchNames(db.rows, batch), fails)
            == Outcome(Popped(db, ms, base, n), n == 0 || db.rows[n - 1].batch != batch)
  {
    hide Inverts, Replay, BatchNames, IdsAscend, DistinctRows, NoOrphans;
    assert db.rows[..|db.rows|] == db.rows;
    if db.rows == [] || db.rows[|db.rows| - 1].batch != batch {
      NothingToPop(db, batch);
    } else {
      var last, rest := db.rows[|db.rows| - 1], db.rows[..|db.rows| - 1];
      PopFails(db, ms, base, rest, last, fails);
    }
  }

  lemma {:induction false} NothingToPop<S>(db: Tables<S>, batch: nat)
    requires BatchesClimb(db.rows)
    requires db.rows != [] ==> db.rows[|db.rows| - 1].batch < batch
    ensures BatchNames(db.rows, batch) == []
  {
    forall i | 0 <= i < |db.rows|
      ensures db.rows[i].batch != batch
    {
      BatchesOrdered(db.rows, i, |db.rows| - 1);
    }
    NoBatchNames(db.rows, batch);
  }

  lemma {:induction false} RollbackIs<S(!new)>(db: Tables<S>, ms: seq<Migration<S>>, base: S, fails: set<string>)
    requires Sound(ms) && Stack(db, ms, base)
    ensures var n := Left(db.rows, CurrentBatch(db.rows), fails);
            RollbackLast(db, ms, fails)
            == Outcome(Popped(db, ms, base, n), n == 0 || db.rows[n - 1].batch != CurrentBatch(db.rows))
  {
    if db.rows == [] {
      assert db.rows[..0] == db.rows;
    } else {
      LastBatch(db.rows);
      RollbackPops(db, ms, base, CurrentBatch(db.rows), fails);
    }
  }

  /** Whether or not it stops at a failing `down`, a rollback keeps the stack. */
  lemma {:induction false} RollbackKeepsStack<S(!new)>(db: Tables<S>, ms: seq<Migration<S>>, base: S, fails: set<string>)
    requires Sound(ms) && Stack(db, ms, base)
    ensures Stack(RollbackLast(db, ms, fails).db, ms, base)
  {
    RollbackIs(db, ms, base, fails);
    StackPop(db, ms, base, Left(db.rows, CurrentBatch(db.rows), fails));
  }

  // ----- Any sequence of runs and rollbacks -----

  /** Each run or rollback comes with the migrations registered at that time. */
  datatype Op<!S> = Up(ms: seq<Migration<S>>, fails: set<string>) | Down(ms: seq<Migration<S>>, fails: set<string>)

  function PerformOne<S>(db: Tables<S>, op: Op<S>): Tables<S> {
    match op
    case Up(ms, fails) => RunAll(db, ms, fails).db
    case Down(ms, fails) => RollbackLast(db, ms, fails).db
  }

  function Perform<S>(db: Tables<S>, ops: seq<Op<S>>): Tables<S>
    decreases |ops|
  {
    if ops == [] then db else Perform(PerformOne(db, ops[0]), ops[1..])
  }

  /** What is recorded in the table is registered as it was; all else may have been added, dropped or moved. */
  ghost predicate Agrees<S>(ms: seq<Migration<S>>, ms': seq<Migration<S>>, rows: seq<Row>) {
    forall i :: 0 <= i < |rows| ==> Find(ms', rows[i].name) == Find(ms, rows[i].name)
  }

  /** At every step the registered list is sound and agrees with the one before on what is recorded. */
  ghost predicate Maintained<S(!new)>(db: Tables<S>, ms: seq<Migration<S>>, ops: seq<Op<S>>)
    decreases |ops|
  {
    ops != [] ==>
      && Sound(ops[0].ms) && Agrees(ms, ops[0].ms, db.rows)
      && Maintained(PerformOne(db, ops[0]), ops[0].ms, ops[1..])
  }

  function LastList<S>(ms: seq<Migration<S>>, ops: seq<Op<S>>): seq<Migration<S>> {
    if ops == [] then ms else ops[|ops| - 1].ms
  }

  lemma {:induction false} ReplaySame<S>(ms: seq<Migration<S>>, ms': seq<Migration<S>>, rows: seq<Row>, base: S)
    requires Agrees(ms, ms', rows)
    ensures Replay(ms', rows, base) == Replay(ms, rows, base)
  {
    if rows != [] {
      var before := rows[..|rows| - 1];
      assert forall i :: 0 <= i < |before| ==> before[i] == rows[i];
      ReplaySame(ms, ms', before, base);
    }
  }

  lemma {:induction false} StackCarries<S(!new)>(db: Tables<S>, ms: seq<Migration<S>>, ms': seq<Migration<S>>, base: S)
    requires Stack(db, ms, base) && Agrees(ms, ms', db.rows)
    ensures Stack(db, ms', base)
  {
    ReplaySame(ms, ms', db.rows, base);
  }

  lemma {:induction false} StackKept<S(!new)>(db: Tables<S>, ms: seq<Migration<S>>, base: S, ops: seq<Op<S>>)
    requires Stack(db, ms, base) && Maintained(db, ms, ops)
    ensures Stack(Perform(db, ops), LastList(ms, ops), base)
    decreases |ops|
  {
    hide Stack, Agrees, Inverts, RunAll, RollbackLast;
    if ops != [] {
      StackCarries(db, ms, ops[0].ms, base);
      match ops[0] {
        case Up(ms', fails) => RunKeepsStack(db, ms', base, fails);
        case Down(ms', fails) => RollbackKeepsStack(db, ms', base, fails);
      }
      StackKept(PerformOne(db, ops[0]), ops[0].ms, base, ops[1..]);
    }
  }

  lemma {:induction false} FreshIsStack<S(!new)>(base: S)
    ensures Stack(Tables([], 1, base), [], base)
  {
  }

  /**
   * From a fresh database, over any sequence of runs and rollbacks, each with its own list of registered migrations
   * and each stopping at any failing step, the tracking table stays a stack: the schema is the replay of its rows,
   * ids ascend, and batches climb from 1 without a gap.
   */
  lemma {:induction false} StackForever<S(!new)>(base: S, ops: seq<Op<S>>)
    requires Maintained(Tables([], 1, base), [], ops)
    ensures Stack(Perform(Tables([], 1, base), ops), LastList([], ops), base)
  {
    FreshIsStack(base);
    StackKept(Tables([], 1, base), [], base, ops);
  }

  // ----- Run twice, run and roll back, resume -----

  lemma {:induction false} NothingPending<S>(ms: seq<Migration<S>>, applied: seq<string>)
    requires forall i :: 0 <= i < |ms| ==> ms[i].name in applied
    ensures Pending(ms, applied) == []
  {
    if ms != [] {
      NothingPending(ms[1..], applied);
    }
  }

  lemma {:induction false} NamesApplied<S>(db: Tables<S>, pend: seq<Migration<S>>, batch: nat, n: nat)
    requires n <= |pend|
    ensures forall x :: x in Names(db.rows) ==> x in Names(Applied(db, pend, batch, n).rows)
    ensures forall i :: 0 <= i < n ==> pend[i].name in Names(Applied(db, pend, batch, n).rows)
    ensures forall i :: n <= i < |pend| && DistinctNames(pend) && pend[i].name !in Names(db.rows) ==>
              pend[i].name !in Names(Applied(db, pend, batch, n).rows)
  {
    var rows := Applied(db, pend, batch, n).rows;
    assert forall i :: 0 <= i < |db.rows| ==> Names(rows)[i] == Names(db.rows)[i];
    assert forall i :: 0 <= i < n ==> Names(rows)[|db.rows| + i] == pend[i].name;
    assert |rows| == |db.rows| + n;
  }

  /** After a run that ends well, a further run changes nothing. */
  lemma {:induction false} RunTwice<S(!new)>(db: Tables<S>, ms: seq<Migration<S>>, fails: set<string>, fails': set<string>)
    requires DistinctNames(ms) && RunAll(db, ms, fails).ok
    ensures RunAll(RunAll(db, ms, fails).db, ms, fails') == Outcome(RunAll(db, ms, fails).db, true)
  {
    var after := RunAll(db, ms, fails).db;
    AllApplied(db, ms, fails);
    NothingPending(ms, Names(after.rows));
    RunIs(after, ms, fails');
    hide RunFrom, CurrentBatch, Pending;
    assert Stamped(Pending(ms, Names(after.rows))[..0], after.nextId, CurrentBatch(after.rows) + 1) == [];
    assert after.rows + [] == after.rows;
  }

  lemma {:induction false} AllApplied<S(!new)>(db: Tables<S>, ms: seq<Migration<S>>, fails: set<string>)
    requires DistinctNames(ms) && RunAll(db, ms, fails).ok
    ensures forall i :: 0 <= i < |ms| ==> ms[i].name in Names(RunAll(db, ms, fails).db.rows)
  {
    var pend := Pending(ms, Names(db.rows));
    var after := RunAll(db, ms, fails).db;
    RunIs(db, ms, fails);
    PendingOf(ms, Names(db.rows));
    NamesApplied(db, pend, CurrentBatch(db.rows) + 1, |pend|);
    hide RunFrom, CurrentBatch, Pending, Applied, Names;
    forall i | 0 <= i < |ms|
      ensures ms[i].name in Names(after.rows)
    {
      if ms[i].name !in Names(db.rows) {
        assert ms[i] in pend;
      }
    }
  }

  lemma {:induction false} LeftOfBatch(rows: seq<Row>, top: seq<Row>, batch: nat)
    requires forall i :: 0 <= i < |top| ==> top[i].batch == batch
    requires rows != [] ==> rows[|rows| - 1].batch != batch
    ensures Left(rows + top, batch, {}) == |rows|
    decreases |top|
  {
    var all := rows + top;
    if top == [] {
      assert all == rows;
    } else {
      assert all[..|all| - 1] == rows + top[..|top| - 1];
      LeftOfBatch(rows, top[..|top| - 1], batch);
    }
  }

  /**
   * A rollback undoes the run before it, complete or stopped half-way, provided that run applied anything: the
   * rows and the schema are what they were, and only serial ids have been used up.
   */
  lemma {:induction false} RollbackUndoesRun<S(!new)>(db: Tables<S>, ms: seq<Migration<S>>, base: S, fails: set<string>)
    requires Sound(ms) && Stack(db, ms, base)
    requires RunAll(db, ms, fails).db.rows != db.rows
    ensures RollbackLast(RunAll(db, ms, fails).db, ms, {})
         == Outcome(Tables(db.rows, RunAll(db, ms, fails).db.nextId, db.schema), true)
  {
    hide RunAll, RollbackLast, Pending, Left, Replay, Inverts, CurrentBatch, Ups, BeforeFailure;
    var pend, batch := Pending(ms, Names(db.rows)), CurrentBatch(db.rows) + 1;
    var n := BeforeFailure(pend, fails);
    var after := RunAll(db, ms, fails).db;
    var top := Stamped(pend[..n], db.nextId, batch);
    RunIs(db, ms, fails);
    RunKeepsStack(db, ms, base, fails);
    LastBatch(after.rows);
    if db.rows != [] {
      LastBatch(db.rows);
    }
    LeftOfBatch(db.rows, top, batch);
    RollbackIs(after, ms, base, {});
    assert after.rows[..|db.rows|] == db.rows;
  }

  lemma {:induction false} LeftTwice(rows: seq<Row>, batch: nat, fails: set<string>)
    ensures Left(rows[..Left(rows, batch, fails)], batch, {}) == Left(rows, batch, {})
    decreases |rows|
  {
    if rows == [] || rows[|rows| - 1].batch != batch || rows[|rows| - 1].name in fails {
      assert rows[..|rows|] == rows;
    } else {
      var rest := rows[..|rows| - 1];
      LeftTwice(rest, batch, fails);
      assert rest[..Left(rest, batch, fails)] == rows[..Left(rest, batch, fails)];
    }
  }

  lemma {:induction false} RollbackHalf<S(!new)>(db: Tables<S>, ms: seq<Migration<S>>, base: S, n: nat, batch: nat)
    requires Sound(ms) && Stack(db, ms, base) && 0 < n <= |db.rows| && db.rows[n - 1].batch == batch
    requires Left(db.rows[..n], batch, {}) == Left(db.rows, batch, {})
    ensures var k := Left(db.rows, batch, {});
            RollbackLast(Popped(db, ms, base, n), ms, {})
            == Outcome(Popped(db, ms, base, k), k == 0 || db.rows[k - 1].batch != batch)
  {
    hide RollbackLast, Left, Replay, Sound;
    var half := Popped(db, ms, base, n);
    StackPop(db, ms, base, n);
    LastBatch(half.rows);
    RollbackIs(half, ms, base, {});
    var k := Left(db.rows, batch, {});
    assert half.rows[..k] == db.rows[..k];
  }

  /** A rollback that stopped at a failing `down` is completed by the next one: together they equal one clean rollback. */
  lemma {:induction false} RollbackResumes<S(!new)>(db: Tables<S>, ms: seq<Migration<S>>, base: S, fails: set<string>)
    requires Sound(ms) && Stack(db, ms, base) && !RollbackLast(db, ms, fails).ok
    ensures RollbackLast(RollbackLast(db, ms, fails).db, ms, {}) == RollbackLast(db, ms, {})
  {
    var batch := CurrentBatch(db.rows);
    RollbackIs(db, ms, base, fails);
    RollbackIs(db, ms, base, {});
    LeftTwice(db.rows, batch, fails);
    RollbackHalf(db, ms, base, Left(db.rows, batch, fails), batch);
  }

  lemma {:induction false} UpsCat<S>(a: seq<Migration<S>>, b: seq<Migration<S>>, schema: S)
    ensures Ups(a + b, schema) == Ups(b, Ups(a, schema))
    decreases a
  {
    if a == [] {
      assert a + b == b;
    } else {
      UpsCat(a[1..], b, a[0].up(schema));
      assert (a + b)[1..] == a[1..] + b;
    }
  }

  lemma {:induction false} NoFailure<S>(pend: seq<Migration<S>>)
    ensures BeforeFailure(pend, {}) == |pend|
  {
    if pend != [] {
      NoFailure(pend[1..]);
    }
  }

  lemma {:induction false} PendingAfter<S>(ms: seq<Migration<S>>, applied: seq<string>, applied': seq<string>, n: nat)
    requires DistinctNames(ms) && n <= |Pending(ms, applied)|
    requires forall i :: 0 <= i < |ms| && ms[i].name in applied ==> ms[i].name in applied'
    requires var pend := Pending(ms, applied);
             forall i :: 0 <= i < |pend| ==> (pend[i].name in applied' <==> i < n)
    ensures Pending(ms, applied') == Pending(ms, applied)[n..]
  {
    hide Pending, DistinctNames;
    if ms == [] {
      NonePending<S>(applied);
      NonePending<S>(applied');
    } else {
      var pend, rest := Pending(ms, applied), Pending(ms[1..], applied);
      PendingIs(ms, applied);
      PendingIs(ms, applied');
      DistinctTail(ms);
      assert forall i :: 0 <= i < |ms| - 1 ==> ms[1..][i] == ms[i + 1];
      if ms[0].name in applied {
        assert ms[0].name in applied';
        assert pend == rest;
        PendingAfter(ms[1..], applied, applied', n);
      } else {
        assert pend == [ms[0]] + rest;
        CutFirst(ms[0], rest, applied', n);
        PendingAfter(ms[1..], applied, applied', if n == 0 then 0 else n - 1);
      }
    }
  }

  lemma {:induction false} CutFirst<S>(m: Migration<S>, rest: seq<Migration<S>>, applied: seq<string>, n: nat)
    requires n <= |rest| + 1
    requires var pend := [m] + rest; forall i :: 0 <= i < |pend| ==> (pend[i].name in applied <==> i < n)
    ensures var k := if n == 0 then 0 else n - 1;
            && (forall i :: 0 <= i < |rest| ==> (rest[i].name in applied <==> i < k))
            && ([m] + rest)[n..] == (if m.name in applied then [] else [m]) + rest[k..]
  {
    var pend := [m] + rest;
    assert pend[0] == m && forall i :: 0 <= i < |rest| ==> rest[i] == pend[i + 1];
    assert m.name in applied <==> 0 < n;
  }

  lemma {:induction false} NonePending<S>(applied: seq<string>)
    ensures Pending<S>([], applied) == []
  {
  }

  lemma {:induction false} DistinctTail<S>(ms: seq<Migration<S>>)
    requires DistinctNames(ms) && ms != []
    ensures DistinctNames(ms[1..])
  {
  }

  lemma {:induction false} HalfPending<S(!new)>(db: Tables<S>, ms: seq<Migration<S>>, batch: nat, n: nat)
    requires DistinctNames(ms) && n <= |Pending(ms, Names(db.rows))|
    ensures var pend := Pending(ms, Names(db.rows));
            Pending(ms, Names(Applied(db, pend, batch, n).rows)) == pend[n..]
  {
    var applied := Names(db.rows);
    var pend := Pending(ms, applied);
    PendingOf(ms, applied);
    PendingRegistered(ms, applied);
    NamesApplied(db, pend, batch, n);
    PendingAfter(ms, applied, Names(Applied(db, pend, batch, n).rows), n);
  }

  lemma {:induction false} AppliedTwice<S(!new)>(db: Tables<S>, pend: seq<Migration<S>>, b: nat, b': nat, n: nat)
    requires n <= |pend|
    ensures var resumed, clean := Applied(Applied(db, pend, b, n), pend[n..], b', |pend| - n), Applied(db, pend, b, |pend|);
            resumed.schema == clean.schema && Names(resumed.rows) == Names(clean.rows)
  {
    assert pend == pend[..n] + pend[n..] && pend[..|pend|] == pend && pend[n..][..|pend| - n] == pend[n..];
    UpsCat(pend[..n], pend[n..], db.schema);
  }

  /**
   * A run that stopped at a failing `up` is completed by the next one: the same names in the same order, and the
   * same schema, as one clean run.
   */
  lemma {:induction false} RunResumes<S(!new)>(db: Tables<S>, ms: seq<Migration<S>>, fails: set<string>)
    requires DistinctNames(ms)
    ensures var resumed, clean := RunAll(RunAll(db, ms, fails).db, ms, {}), RunAll(db, ms, {});
            && resumed.ok && clean.ok && resumed.db.schema == clean.db.schema
            && Names(resumed.db.rows) == Names(clean.db.rows)
  {
    hide *;
    var pend, batch := Pending(ms, Names(db.rows)), CurrentBatch(db.rows) + 1;
    var n := BeforeFailure(pend, fails);
    var half := RunAll(db, ms, fails).db;
    RunIs(db, ms, fails);
    RunIs(db, ms, {});
    RunIs(half, ms, {});
    HalfPending(db, ms, batch, n);
    NoFailure(pend);
    NoFailure(pend[n..]);
    AppliedTwice(db, pend, batch, CurrentBatch(half.rows) + 1, n);
  }
}
