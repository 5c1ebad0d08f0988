/** What one call of `get_or_populate` does, from its beginning to its end. */
module SingleFlightCalls {
  import opened Values
  import opened SingleFlight
  import opened SingleFlightInvariant
  import opened SingleFlightRuns
  import K = SingleFlightCache

  // ----- A warm key -----

  /** There is an entry for the key whose time to live has not passed. */
  predicate Fresh(s: State, k: Key) {
    k in s.cache && s.now < s.cache[k].putAt + s.cache[k].ttl
  }

  /**
   * In every reachable state a look at a fresh entry ends the call: it is served that very entry, and neither the
   * cache nor the in-flight machinery is touched. A look at anything else serves nothing.
   */
  lemma {:induction false} FreshIsServed(sh: Shards, s0: State, run: seq<Action>, i: nat)
    requires Initial(s0) && Possible(sh, s0, run)
    requires i < |After(sh, s0, run).pcs| && After(sh, s0, run).pcs[i].Start?
    ensures Possible(sh, s0, run + [Caller(i, Look)])
    ensures var s, t := After(sh, s0, run), After(sh, s0, run + [Caller(i, Look)]);
            var k := s.pcs[i].key;
            && t == s.(pcs := t.pcs) && |t.pcs| == |s.pcs| && t.pcs == s.pcs[i := t.pcs[i]]
            && (Fresh(s, k) ==> t.pcs[i] == Served(s.cache[k], s.now))
            && (!Fresh(s, k) && k in s.cache ==> t.pcs[i] == Expired(k, s.pcs[i].ttl))
            && (k !in s.cache ==> t.pcs[i] == Missed(k, s.pcs[i].ttl))
  {
    Extend(sh, s0, run, Caller(i, Look));
  }

  /** Not a step of the caller `i`. */
  predicate ByOthers(run: seq<Action>, i: nat) {
    forall n :: 0 <= n < |run| ==> !(run[n].Caller? && run[n].i == i)
  }

  lemma {:induction false} OthersStep(sh: Shards, s: State, a: Action, i: nat)
    requires Enabled(sh, s, a) && i < |s.pcs| && !(a.Caller? && a.i == i)
    ensures i < |Apply(sh, s, a).pcs| && Apply(sh, s, a).pcs[i] == s.pcs[i]
  {
    if a.Caller? {
      OnlyOneMoves(s, a.i, a.move);
    }
  }

  lemma {:induction false} OthersRun(sh: Shards, s: State, run: seq<Action>, i: nat)
    requires Possible(sh, s, run) && ByOthers(run, i) && i < |s.pcs|
    ensures i < |After(sh, s, run).pcs| && After(sh, s, run).pcs[i] == s.pcs[i]
    decreases |run|
  {
    hide Enabled, Apply;
    if run != [] {
      OthersStep(sh, s, run[0], i);
      OthersRun(sh, Apply(sh, s, run[0]), run[1..], i);
    }
  }

  lemma {:induction false} PrefixPossible(sh: Shards, s: State, run: seq<Action>, n: nat)
    requires Possible(sh, s, run) && n <= |run|
    ensures Possible(sh, s, run[..n])
    decreases |run|
  {
    hide Enabled, Apply;
    if n > 0 {
      PrefixPossible(sh, Apply(sh, s, run[0]), run[1..], n - 1);
      assert run[..n][1..] == run[1..][..n - 1];
    }
  }

  /**
   * A call that finds its entry fresh when it looks, whatever happens in between, never holds an attempt: at every
   * point it has either not looked yet or been served.
   */
  lemma {:induction false} WarmCallHoldsNothing(sh: Shards, s: State, i: nat, k: Key, ttl: nat, between: seq<Action>, n: nat)
    requires i < |s.pcs| && Free(s.pcs[i]) && ByOthers(between, i)
    requires Possible(sh, s, [Caller(i, Begin(k, ttl))] + between)
    requires Fresh(After(sh, s, [Caller(i, Begin(k, ttl))] + between), k)
    requires 0 < n <= |between| + 2
    ensures var run := [Caller(i, Begin(k, ttl))] + between + [Caller(i, Look)];
            && Possible(sh, s, run) && Possible(sh, s, run[..n])
            && i < |After(sh, s, run[..n]).pcs|
            && (n < |run| ==> After(sh, s, run[..n]).pcs[i] == Start(k, ttl))
            && (n == |run| ==>
                  var at := After(sh, s, [Caller(i, Begin(k, ttl))] + between);
                  k in at.cache && After(sh, s, run[..n]).pcs[i] == Served(at.cache[k], at.now))
  {
    hide Enabled, Apply, After, Possible, Fresh;
    var begin := [Caller(i, Begin(k, ttl))];
    var started := begin + between;
    var run := started + [Caller(i, Look)];
    if n < |run| {
      assert run[..n] == started[..n];
      StartedCall(sh, s, i, k, ttl, between, n);
    } else {
      assert run[..n] == run;
    }
    assert started[..|started|] == started;
    StartedCall(sh, s, i, k, ttl, between, |started|);
    LookServes(sh, After(sh, s, started), i, k);
    Extend(sh, s, started, Caller(i, Look));
    RunsOn(sh, s, run, n);
  }

  lemma {:induction false} RunsOn(sh: Shards, s: State, run: seq<Action>, n: nat)
    requires Possible(sh, s, run) && n <= |run|
    ensures Possible(sh, s, run[..n])
  {
    hide *;
    PrefixPossible(sh, s, run, n);
  }

  lemma {:induction false} LookServes(sh: Shards, s: State, i: nat, k: Key)
    requires i < |s.pcs| && s.pcs[i].Start? && s.pcs[i].key == k && Fresh(s, k)
    ensures Enabled(sh, s, Caller(i, Look))
    ensures i < |Apply(sh, s, Caller(i, Look)).pcs| && k in s.cache
    ensures Apply(sh, s, Caller(i, Look)).pcs[i] == Served(s.cache[k], s.now)
  {
  }

  lemma {:induction false} StartedCall(sh: Shards, s: State, i: nat, k: Key, ttl: nat, between: seq<Action>, n: nat)
    requires i < |s.pcs| && Free(s.pcs[i]) && ByOthers(between, i)
    requires Possible(sh, s, [Caller(i, Begin(k, ttl))] + between)
    requires 0 < n <= |between| + 1
    ensures var run := ([Caller(i, Begin(k, ttl))] + between)[..n];
            Possible(sh, s, run) && i < |After(sh, s, run).pcs| && After(sh, s, run).pcs[i] == Start(k, ttl)
  {
    var a := Caller(i, Begin(k, ttl));
    var run := ([a] + between)[..n];
    PrefixPossible(sh, s, [a] + between, n);
    assert run[0] == a && run[1..] == between[..n - 1];
    OthersRun(sh, Apply(sh, s, a), between[..n - 1], i);
  }

  // ----- A cold key, with nobody else on it -----

  function SoloMoves(k: Key, ttl: nat, error: Option<string>): seq<Move> {
    [Begin(k, ttl), Look, FindOrCreate, Join, TakePermit, Query(error), Store, Resolve, Unlist, DropGuard, CheckLast]
  }

  function By(i: nat, moves: seq<Move>): seq<Action> {
    seq(|moves|, n requires 0 <= n < |moves| => Caller(i, moves[n]))
  }

  /** The answer of the database, or the loader's error. */
  function Answer(s: State, k: Key, error: Option<string>): Outcome {
    if error.Some? then Failed(error.value) else Loaded(Version(s, k.table))
  }

  lemma {:induction false} TwoRuns(sh: Shards, s: State, a: seq<Action>, t: State, b: seq<Action>, u: State)
    requires Possible(sh, s, a) && After(sh, s, a) == t && Possible(sh, t, b) && After(sh, t, b) == u
    ensures Possible(sh, s, a + b) && After(sh, s, a + b) == u
  {
    hide *;
    Chain(sh, s, a, b);
  }

  lemma {:induction false} OneMore(sh: Shards, s: State, run: seq<Action>, t: State, a: Action, u: State)
    requires Possible(sh, s, run) && After(sh, s, run) == t && Enabled(sh, t, a) && Apply(sh, t, a) == u
    ensures Possible(sh, s, run + [a]) && After(sh, s, run + [a]) == u
  {
    hide *;
    Extend(sh, s, run, a);
  }

  lemma {:induction false} SoloLooks(sh: Shards, s: State, i: nat, k: Key, ttl: nat)
    requires Handles(s) && i < |s.pcs| && Free(s.pcs[i]) && k !in s.cache
    ensures var run := By(i, [Begin(k, ttl), Look]);
            Possible(sh, s, run) && After(sh, s, run) == Goto(s, i, Missed(k, ttl))
  {
    var a, b := Caller(i, Begin(k, ttl)), Caller(i, Look);
    Once(sh, s, a);
    OneMore(sh, s, [a], Goto(s, i, Start(k, ttl)), b, Goto(s, i, Missed(k, ttl)));
    assert By(i, [Begin(k, ttl), Look]) == [a] + [b];
  }

  lemma {:induction false} SoloJoins(sh: Shards, s: State, i: nat, k: Key, ttl: nat)
    requires i < |s.pcs| && s.pcs[i] == Missed(k, ttl) && k !in s.inFlight
    ensures var run, c := By(i, [FindOrCreate, Join]), |s.cells|;
            Possible(sh, s, run)
            && After(sh, s, run) == Goto(s, i, Joined(c, ttl)).(
                                      cells := s.cells + [Cell(k, false, None, 1)], inFlight := s.inFlight[k := c])
  {
    hide Possible, After;
    var c := |s.cells|;
    var s1 := Goto(s, i, Cloned(c, ttl)).(cells := s.cells + [Cell(k, false, None, 0)], inFlight := s.inFlight[k := c]);
    var s2 := Goto(s1, i, Joined(c, ttl)).(cells := s.cells + [Cell(k, false, None, 1)]);
    var a1, a2 := Caller(i, FindOrCreate), Caller(i, Join);
    Once(sh, s, a1);
    OneMore(sh, s, [a1], s1, a2, s2);
    assert By(i, [FindOrCreate, Join]) == [a1] + [a2];
  }

  lemma {:induction false} SoloQueries(sh: Shards, s: State, i: nat, k: Key, c: nat, ttl: nat, error: Option<string>)
    requires i < |s.pcs| && s.pcs[i] == Joined(c, ttl) && c < |s.cells| && s.cells[c] == Cell(k, false, None, 1)
    ensures var run := By(i, [TakePermit, Query(error)]);
            Possible(sh, s, run)
            && After(sh, s, run) == Goto(s, i, Fetched(c, ttl, Answer(s, k, error))).(
                                      cells := s.cells[c := Cell(k, true, None, 1)])
  {
    hide Possible, After;
    var s1 := Goto(s, i, Running(c, ttl)).(cells := s.cells[c := Cell(k, true, None, 1)]);
    var s2 := Goto(s1, i, Fetched(c, ttl, Answer(s, k, error)));
    var a1, a2 := Caller(i, TakePermit), Caller(i, Query(error));
    Once(sh, s, a1);
    OneMore(sh, s, [a1], s1, a2, s2);
    assert By(i, [TakePermit, Query(error)]) == [a1] + [a2];
  }

  lemma {:induction false} SoloStores(sh: Shards, s: State, i: nat, k: Key, c: nat, ttl: nat, out: Outcome)
    requires i < |s.pcs| && s.pcs[i] == Fetched(c, ttl, out) && c < |s.cells| && s.cells[c] == Cell(k, true, None, 1)
    ensures var run := By(i, [Store, Resolve]);
            Possible(sh, s, run)
            && After(sh, s, run) == Goto(s, i, Resolved(c, out)).(
                 cells := s.cells[c := Cell(k, false, Some(out), 1)], cache := WithOutcome(s, k, ttl, out))
  {
    hide Possible, After;
    var s1 := Goto(s, i, Stored(c, out)).(cache := WithOutcome(s, k, ttl, out));
    var s2 := Goto(s1, i, Resolved(c, out)).(cells := s.cells[c := Cell(k, false, Some(out), 1)]);
    var a1, a2 := Caller(i, Store), Caller(i, Resolve);
    Once(sh, s, a1);
    OneMore(sh, s, [a1], s1, a2, s2);
    assert By(i, [Store, Resolve]) == [a1] + [a2];
  }

  lemma {:induction false} SoloLeaves(sh: Shards, s: State, i: nat, k: Key, c: nat, out: Outcome)
    requires i < |s.pcs| && s.pcs[i] == Resolved(c, out) && c < |s.cells| && s.cells[c] == Cell(k, false, Some(out), 1)
    requires k in s.inFlight && s.inFlight[k] == c
    ensures var run := By(i, [Unlist, DropGuard, CheckLast]);
            Possible(sh, s, run)
            && After(sh, s, run) == Goto(s, i, Returned(c, out)).(
                 cells := s.cells[c := Cell(k, false, Some(out), 0)], inFlight := s.inFlight - {k})
  {
    hide Possible, After;
    var s1 := Goto(s, i, Unlisted(c, out)).(inFlight := s.inFlight - {k});
    var s2 := Goto(s1, i, LastOut(c, Some(out))).(cells := s.cells[c := Cell(k, false, Some(out), 0)]);
    var s3 := Goto(s2, i, Returned(c, out));
    var a1, a2, a3 := Caller(i, Unlist), Caller(i, DropGuard), Caller(i, CheckLast);
    Once(sh, s, a1);
    OneMore(sh, s, [a1], s1, a2, s2);
    OneMore(sh, s, [a1] + [a2], s2, a3, s3);
    assert By(i, [Unlist, DropGuard, CheckLast]) == [a1] + [a2] + [a3];
  }

  /** A value is cached with the given time to live; an error is not cached. */
  function WithOutcome(s: State, k: Key, ttl: nat, out: Outcome): map<Key, Entry> {
    if out.Failed? then s.cache else s.cache[k := Entry(out.ver, Version(s, k.table), s.now, ttl)]
  }

  /**
   * On a cold key that nobody is loading, a call alone can always run to its end: it returns what the database answers
   * now, or the loader's error; a value is cached with the time to live the call began with, an error is not; and
   * apart from a resolved attempt that nobody can reach, everything else is as it was.
   */
  lemma {:induction false} ColdCall(sh: Shards, s: State, i: nat, k: Key, ttl: nat, error: Option<string>)
    requires Handles(s) && i < |s.pcs| && Free(s.pcs[i]) && k !in s.cache && k !in s.inFlight
    ensures var run, out, c := By(i, SoloMoves(k, ttl, error)), Answer(s, k, error), |s.cells|;
            Possible(sh, s, run)
            && After(sh, s, run) == s.(
                 pcs := s.pcs[i := Returned(c, out)],
                 cells := s.cells + [Cell(k, false, Some(out), 0)],
                 cache := if error.Some? then s.cache
                          else s.cache[k := Entry(Version(s, k.table), Version(s, k.table), s.now, ttl)])
  {
    hide Possible, After, Enabled, Apply, Version, SoloMoves, By;
    var c, out := |s.cells|, Answer(s, k, error);
    var open, shut := Cell(k, false, None, 1), Cell(k, false, Some(out), 1);
    var s1 := Goto(s, i, Missed(k, ttl));
    var s2 := Goto(s, i, Joined(c, ttl)).(cells := s.cells + [open], inFlight := s.inFlight[k := c]);
    var s3 := Goto(s2, i, Fetched(c, ttl, out)).(cells := s.cells + [Cell(k, true, None, 1)]);
    var s4 := Goto(s3, i, Resolved(c, out)).(cells := s.cells + [shut], cache := WithOutcome(s, k, ttl, out));
    var s5 := Goto(s4, i, Returned(c, out)).(cells := s.cells + [Cell(k, false, Some(out), 0)], inFlight := s.inFlight);
    var r1, r2, r3 := By(i, [Begin(k, ttl), Look]), By(i, [FindOrCreate, Join]), By(i, [TakePermit, Query(error)]);
    var r4, r5 := By(i, [Store, Resolve]), By(i, [Unlist, DropGuard, CheckLast]);
    SoloLooks(sh, s, i, k, ttl);
    SoloJoins(sh, s1, i, k, ttl);
    assert s.cells + [open] == s2.cells;
    SameVersions(s, s2, k, error);
    SoloQueries(sh, s2, i, k, c, ttl, error);
    assert s2.cells[c := Cell(k, true, None, 1)] == s3.cells;
    SameVersions(s, s3, k, error);
    SoloStores(sh, s3, i, k, c, ttl, out);
    assert s3.cells[c := shut] == s4.cells;
    SoloLeaves(sh, s4, i, k, c, out);
    assert s4.cells[c := Cell(k, false, Some(out), 0)] == s5.cells && s4.inFlight - {k} == s.inFlight;
    TwoRuns(sh, s, r1, s1, r2, s2);
    TwoRuns(sh, s, r1 + r2, s2, r3, s3);
    TwoRuns(sh, s, r1 + r2 + r3, s3, r4, s4);
    TwoRuns(sh, s, r1 + r2 + r3 + r4, s4, r5, s5);
    SoloIs(i, k, ttl, error);
  }

  lemma {:induction false} SoloIs(i: nat, k: Key, ttl: nat, error: Option<string>)
    ensures By(i, SoloMoves(k, ttl, error))
         == By(i, [Begin(k, ttl), Look]) + By(i, [FindOrCreate, Join]) + By(i, [TakePermit, Query(error)])
            + By(i, [Store, Resolve]) + By(i, [Unlist, DropGuard, CheckLast])
  {
  }

  lemma {:induction false} SameVersions(s: State, t: State, k: Key, error: Option<string>)
    requires t.vers == s.vers
    ensures Answer(t, k, error) == Answer(s, k, error) && Version(t, k.table) == Version(s, k.table)
  {
  }

  // ----- A value that was stored -----

  function Ticks(n: nat): seq<Action> {
    seq(n, _ => Tick)
  }

  lemma {:induction false} TimePasses(sh: Shards, s: State, n: nat)
    ensures Possible(sh, s, Ticks(n)) && After(sh, s, Ticks(n)) == s.(now := s.now + n)
    decreases n
  {
    if n > 0 {
      TimePasses(sh, s.(now := s.now + 1), n - 1);
      assert Ticks(n)[1..] == Ticks(n - 1);
    }
  }

  /**
   * A stored value is served to later calls exactly as long as the time to live of the call that stored it has not
   * passed, whatever time to live they ask for themselves.
   */
  lemma {:induction false} StoredIsServed(sh: Shards, s: State, i: nat, k: Key, ttl: nat, n: nat, j: nat, ttl': nat)
    requires Handles(s) && i < |s.pcs| && Free(s.pcs[i]) && k !in s.cache && k !in s.inFlight
    requires j < |s.pcs| && Free(s.pcs[j])
    ensures var run := By(i, SoloMoves(k, ttl, None)) + Ticks(n) + By(j, [Begin(k, ttl'), Look]);
            var entry := Entry(Version(s, k.table), Version(s, k.table), s.now, ttl);
            Possible(sh, s, run) && j < |After(sh, s, run).pcs|
            && After(sh, s, run).pcs[j] == if n < ttl then Served(entry, s.now + n) else Expired(k, ttl')
  {
    hide Possible, After, Enabled, Apply, SoloMoves, Version;
    var load := By(i, SoloMoves(k, ttl, None));
    ColdCall(sh, s, i, k, ttl, None);
    var t := After(sh, s, load);
    TimePasses(sh, t, n);
    var u := t.(now := s.now + n);
    TwoRuns(sh, s, load, t, Ticks(n), u);
    LaterLook(sh, u, j, k, ttl');
    var ask := By(j, [Begin(k, ttl'), Look]);
    TwoRuns(sh, s, load + Ticks(n), u, ask, After(sh, u, ask));
  }

  lemma {:induction false} LaterLook(sh: Shards, s: State, j: nat, k: Key, ttl: nat)
    requires j < |s.pcs| && Free(s.pcs[j]) && (AtCell(s.pcs[j]) ==> s.pcs[j].c < |s.cells|) && k in s.cache
    ensures var run := By(j, [Begin(k, ttl), Look]);
            Possible(sh, s, run) && j < |After(sh, s, run).pcs|
            && After(sh, s, run).pcs[j] == if Fresh(s, k) then Served(s.cache[k], s.now) else Expired(k, ttl)
  {
    var a, b := Caller(j, Begin(k, ttl)), Caller(j, Look);
    var s1 := Goto(s, j, Start(k, ttl));
    Once(sh, s, a);
    OneMore(sh, s, [a], s1, b, Goto(s1, j, if Fresh(s, k) then Served(s.cache[k], s.now) else Expired(k, ttl)));
    assert By(j, [Begin(k, ttl), Look]) == [a] + [b];
  }

  // ----- A call keeps its key and its time to live -----

  /** What a caller has in hand belongs to a call for this key, with this time to live. */
  predicate Serves(s: State, p: Pc, k: Key, ttl: nat) {
    && (p.Start? || p.Expired? || p.Missed? ==> p.key == k && p.ttl == ttl)
    && (AtCell(p) ==> p.c < |s.cells| && s.cells[p.c].key == k)
    && (p.Cloned? || p.Joined? || p.Running? || p.Fetched? ==> p.ttl == ttl)
  }

  lemma {:induction false} ServesStep(s: State, i: nat, m: Move, k: Key, ttl: nat)
    requires Handles(s) && CanStep(s, i, m) && !m.Begin? && Serves(s, s.pcs[i], k, ttl)
    ensures i < |Step(s, i, m).pcs| && Serves(Step(s, i, m), Step(s, i, m).pcs[i], k, ttl)
  {
    hide Step;
    OnlyOneMoves(s, i, m);
    if m.FindOrCreate? {
      ServesFound(s, i, k, ttl);
    } else {
      KeepsItsCell(s, i, m);
      K.KeysStay(s, i, m);
      KeepsAsking(s, i, m);
    }
  }

  lemma {:induction false} ServesFound(s: State, i: nat, k: Key, ttl: nat)
    requires Handles(s) && i < |s.pcs| && s.pcs[i] == Missed(k, ttl)
    ensures i < |Step(s, i, FindOrCreate).pcs| && Serves(Step(s, i, FindOrCreate), Step(s, i, FindOrCreate).pcs[i], k, ttl)
  {
  }

  predicate Asks(p: Pc) {
    p.Start? || p.Expired? || p.Missed?
  }

  predicate Timed(p: Pc) {
    Asks(p) || p.Cloned? || p.Joined? || p.Running? || p.Fetched?
  }

  lemma {:induction false} KeepsAsking(s: State, i: nat, m: Move)
    requires CanStep(s, i, m) && !m.FindOrCreate? && !m.Begin? && i < |Step(s, i, m).pcs|
    ensures var p, q := s.pcs[i], Step(s, i, m).pcs[i];
            && (Asks(q) ==> Asks(p) && q.key == p.key && q.ttl == p.ttl)
            && (Timed(q) ==> Timed(p) && q.ttl == p.ttl)
  {
    hide RemoveIf, Version;
  }

  lemma {:induction false} ServesStill(s: State, t: State, p: Pc, k: Key, ttl: nat)
    requires Serves(s, p, k, ttl) && |s.cells| <= |t.cells|
    requires forall c :: 0 <= c < |s.cells| ==> t.cells[c].key == s.cells[c].key
    ensures Serves(t, p, k, ttl)
  {
  }

  lemma {:induction false} CellKeysStay(sh: Shards, s: State, a: Action)
    requires Enabled(sh, s, a)
    ensures var t := Apply(sh, s, a);
            |s.cells| <= |t.cells| && forall c :: 0 <= c < |s.cells| ==> t.cells[c].key == s.cells[c].key
  {
    if a.Caller? {
      K.KeysStay(s, a.i, a.move);
    }
  }

  /** Until the caller begins another call, whatever it holds, stores or returns is for the key it began with. */
  lemma {:induction false} CallKeepsKey(sh: Shards, s: State, run: seq<Action>, i: nat, k: Key, ttl: nat)
    requires Inv(s) && Possible(sh, s, run) && i < |s.pcs| && Serves(s, s.pcs[i], k, ttl)
    requires forall n :: 0 <= n < |run| ==> !(run[n].Caller? && run[n].i == i && run[n].move.Begin?)
    ensures i < |After(sh, s, run).pcs| && Serves(After(sh, s, run), After(sh, s, run).pcs[i], k, ttl)
    decreases |run|
  {
    hide Inv, Serves, Step;
    if run != [] {
      var a, t := run[0], Apply(sh, s, run[0]);
      KeepInv(sh, s, a);
      InvHandles(s);
      if a.Caller? && a.i == i {
        ServesStep(s, i, a.move, k, ttl);
      } else {
        OthersStep(sh, s, a, i);
        CellKeysStay(sh, s, a);
        ServesStill(s, t, s.pcs[i], k, ttl);
      }
      CallKeepsKey(sh, t, run[1..], i, k, ttl);
    }
  }

  lemma {:induction false} InvHandles(s: State)
    requires Inv(s)
    ensures Handles(s)
  {
  }

  /**
   * A call for `k` that has gone on in any company returns an outcome of an attempt for `k`, and puts nothing into the
   * cache but the value it fetched for `k`, with the time to live it began with.
   */
  lemma {:induction false} CallIsForItsKey(sh: Shards, s0: State, before: seq<Action>, i: nat, k: Key, ttl: nat, run: seq<Action>)
    requires Initial(s0) && Possible(sh, s0, before) && i < |After(sh, s0, before).pcs|
    requires After(sh, s0, before).pcs[i] == Start(k, ttl) && Possible(sh, After(sh, s0, before), run)
    requires forall n :: 0 <= n < |run| ==> !(run[n].Caller? && run[n].i == i && run[n].move.Begin?)
    ensures var t := After(sh, After(sh, s0, before), run);
            && i < |t.pcs| && (AtCell(t.pcs[i]) ==> t.pcs[i].c < |t.cells|)
            && (t.pcs[i].Returned? ==>
                  t.cells[t.pcs[i].c].key == k && t.cells[t.pcs[i].c].result == Some(t.pcs[i].out))
            && (t.pcs[i].Fetched? ==>
                  var u := Apply(sh, t, Caller(i, Store));
                  u.cache == if t.pcs[i].out.Failed? then t.cache
                             else t.cache[k := Entry(t.pcs[i].out.ver, Version(t, k.table), t.now, ttl)])
  {
    hide Inv, Version;
    var s := After(sh, s0, before);
    var t := After(sh, s, run);
    StartInv(s0);
    RunInv(sh, s0, before);
    RunInv(sh, s, run);
    CallKeepsKey(sh, s, run, i, k, ttl);
    if t.pcs[i].Returned? {
      ReturnedAgrees(t, i);
    }
  }

  lemma {:induction false} ReturnedAgrees(s: State, i: nat)
    requires Inv(s) && i < |s.pcs| && s.pcs[i].Returned?
    ensures s.pcs[i].c < |s.cells| && s.cells[s.pcs[i].c].result == Some(s.pcs[i].out)
  {
    assert Agrees(s, s.pcs[i]);
  }

  // ----- How an entry leaves the cache -----

  /**
   * A cached entry is lost or replaced in three ways only: a value for its key is stored, a caller that saw an expired
   * entry under its key removes what is there, or an invalidation of its table reaches its shard.
   */
  lemma {:induction false} EntriesStay(sh: Shards, s: State, a: Action, k: Key)
    requires Enabled(sh, s, a) && k in s.cache
    requires var t := Apply(sh, s, a); k !in t.cache || t.cache[k] != s.cache[k]
    ensures || (a.Caller? && a.move.Store? && s.pcs[a.i].out.Loaded? && s.cells[s.pcs[a.i].c].key == k)
            || (a.Caller? && a.move.EvictExpired? && s.pcs[a.i].key == k)
            || (a.Sweep? && s.writers[a.w].table == k.table && s.writers[a.w].next == sh.of(k))
  {
    hide RemoveIf, Finish, Version;
  }

  function Sweeps(w: nat, n: nat): seq<Action> {
    seq(n, _ => Sweep(w))
  }

  lemma {:induction false} SweepsFrom(sh: Shards, s: State, w: nat, n: nat)
    requires w < |s.writers| && s.writers[w].next + n == sh.count
    ensures Possible(sh, s, Sweeps(w, n))
    ensures var t, wr := After(sh, s, Sweeps(w, n)), s.writers[w];
            && t == s.(cache := t.cache, writers := t.writers)
            && t.cache == map k | k in s.cache && !(k.table == wr.table && wr.next <= sh.of(k) < sh.count) :: s.cache[k]
    decreases n
  {
    if n > 0 {
      SweepsFrom(sh, SweepStep(sh, s, w), w, n - 1);
      assert Sweeps(w, n)[1..] == Sweeps(w, n - 1);
    }
  }

  /** A committed write, once its invalidation has run, has removed exactly the entries of its table. */
  lemma {:induction false} WriteInvalidatesExactly(sh: Shards, s: State, table: string)
    requires forall k :: sh.of(k) < sh.count
    ensures var run := [Commit(table)] + Sweeps(|s.writers|, sh.count);
            Possible(sh, s, run)
            && After(sh, s, run).cache == (map k | k in s.cache && k.table != table :: s.cache[k])
            && After(sh, s, run).pcs == s.pcs && After(sh, s, run).inFlight == s.inFlight
            && Version(After(sh, s, run), table) == Version(s, table) + 1
  {
    var t := CommitStep(s, table);
    Once(sh, s, Commit(table));
    SweepsFrom(sh, t, |s.writers|, sh.count);
    var sweeps := Sweeps(|s.writers|, sh.count);
    var u := After(sh, t, sweeps);
    TwoRuns(sh, s, [Commit(table)], t, sweeps, u);
    forall k | k in s.cache
      ensures k in u.cache <==> k.table != table
    {
      assert t.writers[|s.writers|] == Writer(table, Version(s, table) + 1, 0) && sh.of(k) < sh.count;
    }
    assert u.cache == map k | k in s.cache && k.table != table :: s.cache[k];
  }
}
