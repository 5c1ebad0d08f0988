/** Runs that show where the guarantees of the single-flight protocol end. */
module SingleFlightTraces {
  import opened Values
  import opened SingleFlight
  import opened SingleFlightRuns
  import opened SingleFlightCache

  function Lone(callers: nat): State {
    State(0, map[], [], map[], map[], [], seq(callers, i => Idle))
  }

  /** The steps of one caller that finds no entry and looks up its attempt. */
  lemma {:induction false} Misses(sh: Shards, s0: State, run: seq<Action>, i: nat, key: Key) returns (next: seq<Action>)
    requires Possible(sh, s0, run)
    requires var s := After(sh, s0, run); i < |s.pcs| && s.pcs[i].Idle? && key !in s.cache
    ensures next == run + [Caller(i, Begin(key, 9)), Caller(i, Look)]
    ensures Possible(sh, s0, next) && After(sh, s0, next) == Goto(After(sh, s0, run), i, Missed(key, 9))
  {
    var s := After(sh, s0, run);
    Extend(sh, s0, run, Caller(i, Begin(key, 9)));
    var r := run + [Caller(i, Begin(key, 9))];
    var s1 := After(sh, s0, r);
    assert s1 == Goto(s, i, Start(key, 9));
    Extend(sh, s0, r, Caller(i, Look));
    next := r + [Caller(i, Look)];
    assert s1.pcs[i := Missed(key, 9)] == s.pcs[i := Missed(key, 9)];
    assert next == run + [Caller(i, Begin(key, 9)), Caller(i, Look)];
  }

  /**
   * With a cancellation two loaders can run for one key at once: the last waiter is cancelled and takes the attempt
   * off the register after a newcomer has cloned it, so that a third caller starts another attempt.
   */
  lemma {:induction false} CancellationDetaches(sh: Shards, key: Key) returns (run: seq<Action>)
    ensures Possible(sh, Lone(3), run)
    ensures var s := After(sh, Lone(3), run);
            && |s.pcs| == 3 && |s.cells| == 2
            && s.pcs[1] == Running(0, 9) && s.pcs[2] == Running(1, 9) && s.cells[0].key == key && s.cells[1].key == key
  {
    var s0 := Lone(3);
    var r0: seq<Action> := [];
    var r1 := Misses(sh, s0, r0, 0, key);
    var r2 := Misses(sh, s0, r1, 1, key);
    var r3 := Detach(sh, s0, r2, key);
    var r4 := Misses(sh, s0, r3, 2, key);
    run := BothRun(sh, s0, r4, key);
  }

  lemma {:induction false} Detach(sh: Shards, s0: State, run: seq<Action>, key: Key) returns (next: seq<Action>)
    requires Possible(sh, s0, run)
    requires After(sh, s0, run) == State(0, map[], [], map[], map[], [], [Missed(key, 9), Missed(key, 9), Idle])
    ensures Possible(sh, s0, next)
    ensures After(sh, s0, next)
         == State(0, map[], [], map[], map[], [Cell(key, false, None, 0)], [Idle, Cloned(0, 9), Idle])
  {
    var r1 := run + [Caller(0, FindOrCreate)];
    Extend(sh, s0, run, Caller(0, FindOrCreate));
    assert After(sh, s0, r1) == State(0, map[], [], map[], map[key := 0], [Cell(key, false, None, 0)],
                                      [Cloned(0, 9), Missed(key, 9), Idle]);
    var r2 := r1 + [Caller(0, Join)];
    Extend(sh, s0, r1, Caller(0, Join));
    assert After(sh, s0, r2) == State(0, map[], [], map[], map[key := 0], [Cell(key, false, None, 1)],
                                      [Joined(0, 9), Missed(key, 9), Idle]);
    var r3 := r2 + [Caller(0, Cancel)];
    Extend(sh, s0, r2, Caller(0, Cancel));
    var r4 := r3 + [Caller(1, FindOrCreate)];
    Extend(sh, s0, r3, Caller(1, FindOrCreate));
    assert After(sh, s0, r4) == State(0, map[], [], map[], map[key := 0], [Cell(key, false, None, 1)],
                                      [Cancelled(0), Cloned(0, 9), Idle]);
    next := LastLeaves(sh, s0, r4, key);
  }

  lemma {:induction false} LastLeaves(sh: Shards, s0: State, run: seq<Action>, key: Key) returns (next: seq<Action>)
    requires Possible(sh, s0, run)
    requires After(sh, s0, run) == State(0, map[], [], map[], map[key := 0], [Cell(key, false, None, 1)],
                                         [Cancelled(0), Cloned(0, 9), Idle])
    ensures Possible(sh, s0, next)
    ensures After(sh, s0, next)
         == State(0, map[], [], map[], map[], [Cell(key, false, None, 0)], [Idle, Cloned(0, 9), Idle])
  {
    var r1 := run + [Caller(0, DropGuard)];
    Extend(sh, s0, run, Caller(0, DropGuard));
    assert After(sh, s0, r1) == State(0, map[], [], map[], map[key := 0], [Cell(key, false, None, 0)],
                                      [LastOut(0, None), Cloned(0, 9), Idle]);
    var r2 := r1 + [Caller(0, CheckLast)];
    Extend(sh, s0, r1, Caller(0, CheckLast));
    assert After(sh, s0, r2).pcs == [Evicting(0, None), Cloned(0, 9), Idle];
    next := r2 + [Caller(0, Evict)];
    Extend(sh, s0, r2, Caller(0, Evict));
    assert map[key := 0] - {key} == map[];
    assert After(sh, s0, next).pcs == [Idle, Cloned(0, 9), Idle];
  }

  lemma {:induction false} NewcomerRuns(sh: Shards, s0: State, run: seq<Action>, key: Key) returns (next: seq<Action>)
    requires Possible(sh, s0, run)
    requires After(sh, s0, run)
          == State(0, map[], [], map[], map[], [Cell(key, false, None, 0)], [Idle, Cloned(0, 9), Missed(key, 9)])
    ensures Possible(sh, s0, next)
    ensures After(sh, s0, next)
         == State(0, map[], [], map[], map[], [Cell(key, true, None, 1)], [Idle, Running(0, 9), Missed(key, 9)])
  {
    var joined := run + [Caller(1, Join)];
    Extend(sh, s0, run, Caller(1, Join));
    next := joined + [Caller(1, TakePermit)];
    Extend(sh, s0, joined, Caller(1, TakePermit));
  }

  lemma {:induction false} BothRun(sh: Shards, s0: State, run: seq<Action>, key: Key) returns (next: seq<Action>)
    requires Possible(sh, s0, run)
    requires After(sh, s0, run)
          == State(0, map[], [], map[], map[], [Cell(key, false, None, 0)], [Idle, Cloned(0, 9), Missed(key, 9)])
    ensures Possible(sh, s0, next)
    ensures After(sh, s0, next)
         == State(0, map[], [], map[], map[key := 1], [Cell(key, true, None, 1), Cell(key, true, None, 1)],
                  [Idle, Running(0, 9), Running(1, 9)])
  {
    var r2 := NewcomerRuns(sh, s0, run, key);
    var r3 := r2 + [Caller(2, FindOrCreate)];
    Extend(sh, s0, r2, Caller(2, FindOrCreate));
    assert After(sh, s0, r3).cells == [Cell(key, true, None, 1), Cell(key, false, None, 0)];
    assert After(sh, s0, r3).pcs == [Idle, Running(0, 9), Cloned(1, 9)];
    var r4 := r3 + [Caller(2, Join)];
    Extend(sh, s0, r3, Caller(2, Join));
    next := r4 + [Caller(2, TakePermit)];
    Extend(sh, s0, r4, Caller(2, TakePermit));
  }

  /** A write that commits and invalidates between a load's read and its put leaves a stale entry behind. */
  lemma {:induction false} RaceLeavesStale(key: Key) returns (sh: Shards, run: seq<Action>)
    ensures ShardsOk(sh) && Possible(sh, Lone(1), run)
    ensures var s := After(sh, Lone(1), run);
            key in s.cache && s.cache[key].ver < Version(s, key.table) && Settled(sh, s, key.table)
  {
    sh := Shards(k => 0, 1);
    var r1 := Misses(sh, Lone(1), [], 0, key);
    var r2 := Reads(sh, Lone(1), r1, key);
    run := WritesThenStores(sh, Lone(1), r2, key);
  }

  lemma {:induction false} Reads(sh: Shards, s0: State, run: seq<Action>, key: Key) returns (next: seq<Action>)
    requires Possible(sh, s0, run)
    requires After(sh, s0, run) == State(0, map[], [], map[], map[], [], [Missed(key, 9)])
    ensures Possible(sh, s0, next)
    ensures After(sh, s0, next)
         == State(0, map[], [], map[], map[key := 0], [Cell(key, true, None, 1)], [Fetched(0, 9, Loaded(0))])
  {
    var r1 := run + [Caller(0, FindOrCreate)];
    Extend(sh, s0, run, Caller(0, FindOrCreate));
    assert After(sh, s0, r1).cells == [Cell(key, false, None, 0)];
    var r2 := r1 + [Caller(0, Join)];
    Extend(sh, s0, r1, Caller(0, Join));
    var r3 := r2 + [Caller(0, TakePermit)];
    Extend(sh, s0, r2, Caller(0, TakePermit));
    assert After(sh, s0, r3).cells == [Cell(key, true, None, 1)];
    next := r3 + [Caller(0, Query(None))];
    Extend(sh, s0, r3, Caller(0, Query(None)));
  }

  lemma {:induction false} WritesThenStores(sh: Shards, s0: State, run: seq<Action>, key: Key) returns (next: seq<Action>)
    requires Possible(sh, s0, run) && sh.count == 1
    requires After(sh, s0, run)
          == State(0, map[], [], map[], map[key := 0], [Cell(key, true, None, 1)], [Fetched(0, 9, Loaded(0))])
    ensures Possible(sh, s0, next)
    ensures var s := After(sh, s0, next);
            key in s.cache && s.cache[key].ver < Version(s, key.table) && Settled(sh, s, key.table)
  {
    var r1 := run + [Commit(key.table)];
    Extend(sh, s0, run, Commit(key.table));
    var r2 := r1 + [Sweep(0)];
    Extend(sh, s0, r1, Sweep(0));
    next := r2 + [Caller(0, Store)];
    Extend(sh, s0, r2, Caller(0, Store));
  }
}
