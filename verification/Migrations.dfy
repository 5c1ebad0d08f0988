/** The migration runner over an abstract schema and its `_migrations` tracking table. */
module Migrations {
  import opened Values

  datatype Migration<!S> = Migration(name: string, up: S -> S, down: S -> S)

  datatype Row = Row(id: nat, name: string, batch: nat)

  /** The tracking table in id order, the next serial id, and the schema. */
  datatype Tables<S> = Tables(rows: seq<Row>, nextId: nat, schema: S)

  datatype Outcome<S> = Outcome(db: Tables<S>, ok: bool)

  function Names(rows: seq<Row>): seq<string> {
    seq(|rows|, i requires 0 <= i < |rows| => rows[i].name)
  }

  /** COALESCE(MAX(batch), 0) */
  function CurrentBatch(rows: seq<Row>): nat {
    if rows == [] then 0
    else
      var most := CurrentBatch(rows[1..]);
      if rows[0].batch > most then rows[0].batch else most
  }

  /** The names of one batch, newest first. */
  function BatchNames(rows: seq<Row>, batch: nat): seq<string> {
    if rows == [] then []
    else BatchNames(rows[1..], batch) + if rows[0].batch == batch then [rows[0].name] else []
  }

  function Delete(rows: seq<Row>, name: string): seq<Row> {
    if rows == [] then []
    else (if rows[0].name == name then [] else [rows[0]]) + Delete(rows[1..], name)
  }

  function Find<S>(ms: seq<Migration<S>>, name: string): Option<Migration<S>> {
    if ms == [] then None
    else if ms[0].name == name then Some(ms[0])
    else Find(ms[1..], name)
  }

  /** Applying the pending migrations of `ms` in order; the steps named in `fails` fail and change nothing. */
  function RunFrom<S>(db: Tables<S>, ms: seq<Migration<S>>, applied: seq<string>, batch: nat,
                      fails: set<string>): Outcome<S>
    decreases ms
  {
    if ms == [] then Outcome(db, true)
    else
      var m := ms[0];
      if m.name in applied then RunFrom(db, ms[1..], applied, batch, fails)
      else if m.name in fails then Outcome(db, false)
      else
        var schema := m.up(db.schema);
        if m.name in Names(db.rows) then Outcome(db.(schema := schema), false)
        else
          var row := Row(db.nextId, m.name, batch);
          RunFrom(Tables(db.rows + [row], db.nextId + 1, schema), ms[1..], applied, batch, fails)
  }

  function RunAll<S>(db: Tables<S>, ms: seq<Migration<S>>, fails: set<string>): Outcome<S> {
    RunFrom(db, ms, Names(db.rows), CurrentBatch(db.rows) + 1, fails)
  }

  /** Undoing the named migrations in order; names that are no longer registered are passed over. */
  function RollbackOver<S>(db: Tables<S>, ms: seq<Migration<S>>, names: seq<string>, fails: set<string>): Outcome<S>
    decreases names
  {
    if names == [] then Outcome(db, true)
    else
      match Find(ms, names[0])
      case None => RollbackOver(db, ms, names[1..], fails)
      case Some(m) =>
        if m.name in fails then Outcome(db, false)
        else
          RollbackOver(db.(rows := Delete(db.rows, names[0]), schema := m.down(db.schema)), ms, names[1..], fails)
  }

  function RollbackLast<S>(db: Tables<S>, ms: seq<Migration<S>>, fails: set<string>): Outcome<S> {
    var batch := CurrentBatch(db.rows);
    if batch == 0 then Outcome(db, true)
    else RollbackOver(db, ms, BatchNames(db.rows, batch), fails)
  }

  // ----- The runner as written -----

  class Database<S> {
    var rows: seq<Row>
    var nextId: nat
    var schema: S

    constructor (schema: S)
      ensures Contents() == Tables([], 1, schema)
    {
      this.rows, this.nextId, this.schema := [], 1, schema;
    }

    function Contents(): Tables<S>
      reads this
    {
      Tables(rows, nextId, schema)
    }

    /** INSERT, refused by the UNIQUE constraint on the name. */
    method Insert(name: string, batch: nat) returns (ok: bool)
      modifies this
      ensures ok <==> name !in Names(old(rows))
      ensures schema == old(schema)
      ensures ok ==> rows == old(rows) + [Row(old(nextId), name, batch)] && nextId == old(nextId) + 1
      ensures !ok ==> rows == old(rows) && nextId == old(nextId)
    {
      if name in Names(rows) {
        return false;
      }
      rows, nextId := rows + [Row(nextId, name, batch)], nextId + 1;
      return true;
    }
  }

  class MigrationRunner<S> {
    const db: Database<S>
    var migrations: seq<Migration<S>>

    constructor (db: Database<S>)
      ensures this.db == db && migrations == []
    {
      this.db, this.migrations := db, [];
    }

    method Register(m: Migration<S>)
      modifies this
      ensures migrations == old(migrations) + [m]
    {
      migrations := migrations + [m];
    }

    method Run(fails: set<string>) returns (ok: bool)
      modifies db
      ensures Outcome(db.Contents(), ok) == RunAll(old(db.Contents()), migrations, fails)
    {
      var applied := Names(db.rows);
      var batch := CurrentBatch(db.rows) + 1;
      ghost var all := RunAll(db.Contents(), migrations, fails);
      for k := 0 to |migrations|
        invariant RunFrom(db.Contents(), migrations[k..], applied, batch, fails) == all
      {
        var m := migrations[k];
        assert migrations[k..][1..] == migrations[k + 1..];
        if m.name in applied {
          continue;
        }
        if m.name in fails {
          return false;
        }
        db.schema := m.up(db.schema);
        var inserted := db.Insert(m.name, batch);
        if !inserted {
          return false;
        }
      }
      return true;
    }

    method Rollback(fails: set<string>) returns (ok: bool)
      modifies db
      ensures Outcome(db.Contents(), ok) == RollbackLast(old(db.Contents()), migrations, fails)
    {
      var batch := CurrentBatch(db.rows);
      if batch == 0 {
        return true;
      }
      var names := BatchNames(db.rows, batch);
      ghost var all := RollbackLast(db.Contents(), migrations, fails);
      for k := 0 to |names|
        invariant RollbackOver(db.Contents(), migrations, names[k..], fails) == all
      {
        assert names[k..][1..] == names[k + 1..];
        var found := Find(migrations, names[k]);
        if found.Some? {
          if found.value.name in fails {
            return false;
          }
          db.schema := found.value.down(db.schema);
          db.rows := Delete(db.rows, names[k]);
        }
      }
      return true;
    }
  }
}
