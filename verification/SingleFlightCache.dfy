/** What the cached entries are worth: their age, and their agreement with the database. */
module SingleFlightCache {
  import opened SingleFlight
  import opened SingleFlightInvariant
  import opened SingleFlightRuns

  /** No write was committed between the read and the put of the entry. */
  predicate Unraced(e: Entry) {
    e.ver == e.putVer
  }

  /** A committed write to the key's table whose invalidation has not yet reached the key's shard. */
  ghost predicate Pending(sh: Shards, s: State, k: Key) {
    exists w :: 0 <= w < |s.writers| && Awaits(sh, s.writers[w], k)
  }

  predicate Awaits(sh: Shards, w: Writer, k: Key) {
    w.table == k.table && w.next <= sh.of(k)
  }

  ghost predicate ShardsOk(sh: Shards) {
    forall k :: sh.of(k) < sh.count
  }

  ghost predicate Coherent(sh: Shards, s: State) {
    forall k :: k in s.cache && Unraced(s.cache[k]) ==>
      s.cache[k].ver == Version(s, k.table) || Pending(sh, s, k)
  }

  predicate Aged(s: State) {
    && (forall k :: k in s.cache ==> s.cache[k].putAt <= s.now)
    && (forall i :: 0 <= i < |s.pcs| && s.pcs[i].Served? ==>
          s.pcs[i].entry.putAt <= s.pcs[i].at < s.pcs[i].entry.putAt + s.pcs[i].entry.ttl)
  }

  lemma {:induction false} CoherentStep(sh: Shards, s: State, i: nat, m: Move)
    requires Handles(s) && Coherent(sh, s) && i < |s.pcs| && CanMove(s, s.pcs[i], m)
    ensures Coherent(sh, Step(s, i, m))
  {
    var t := Step(s, i, m);
    CallersLeaveTables(s, i, m);
    forall k | k in t.cache && Unraced(t.cache[k])
      ensures t.cache[k].ver == Version(t, k.table) || Pending(sh, t, k)
    {
      CacheOrigin(s, i, m, k);
      if Pending(sh, s, k) {
        var w :| 0 <= w < |s.writers| && Awaits(sh, s.writers[w], k);
        assert Awaits(sh, t.writers[w], k);
      }
    }
  }

  lemma {:induction false} CallersLeaveTables(s: State, i: nat, m: Move)
    requires CanStep(s, i, m)
    ensures var t := Step(s, i, m); t.writers == s.writers && t.vers == s.vers && t.now == s.now
  {
    hide RemoveIf, Finish, Version;
  }

  /** A caller's step leaves a cached entry as it was, or has just stored it. */
  lemma {:induction false} CacheOrigin(s: State, i: nat, m: Move, k: Key)
    requires CanStep(s, i, m) && k in Step(s, i, m).cache
    ensures var t := Step(s, i, m);
            || (k in s.cache && t.cache[k] == s.cache[k])
            || (t.cache[k].putVer == Version(s, k.table) && t.cache[k].putAt == s.now)
  {
  }

  lemma {:induction false} CoherentCommit(sh: Shards, s: State, table: string)
    requires Coherent(sh, s)
    ensures Coherent(sh, CommitStep(s, table))
  {
    var t := CommitStep(s, table);
    forall k | k in t.cache && Unraced(t.cache[k])
      ensures t.cache[k].ver == Version(t, k.table) || Pending(sh, t, k)
    {
      if k.table == table {
        assert Awaits(sh, t.writers[|s.writers|], k);
      } else if Pending(sh, s, k) {
        var w :| 0 <= w < |s.writers| && Awaits(sh, s.writers[w], k);
        assert Awaits(sh, t.writers[w], k);
      }
    }
  }

  lemma {:induction false} CoherentSweep(sh: Shards, s: State, w: nat)
    requires Coherent(sh, s) && w < |s.writers|
    ensures Coherent(sh, SweepStep(sh, s, w))
  {
    var t := SweepStep(sh, s, w);
    forall k | k in t.cache && Unraced(t.cache[k])
      ensures t.cache[k].ver == Version(t, k.table) || Pending(sh, t, k)
    {
      if Pending(sh, s, k) {
        var v :| 0 <= v < |s.writers| && Awaits(sh, s.writers[v], k);
        assert Awaits(sh, t.writers[v], k);
      }
    }
  }

  lemma {:induction false} AgedStep(s: State, i: nat, m: Move)
    requires Handles(s) && Aged(s) && i < |s.pcs| && CanMove(s, s.pcs[i], m)
    ensures Aged(Step(s, i, m))
  {
    var t := Step(s, i, m);
    CallersLeaveTables(s, i, m);
    forall k | k in t.cache
      ensures t.cache[k].putAt <= t.now
    {
      CacheOrigin(s, i, m, k);
    }
    ServedYoung(s, i, m);
  }

  lemma {:induction false} ServedYoung(s: State, i: nat, m: Move)
    requires Handles(s) && Aged(s) && i < |s.pcs| && CanMove(s, s.pcs[i], m)
    ensures forall j :: 0 <= j < |Step(s, i, m).pcs| && Step(s, i, m).pcs[j].Served? ==>
              var p := Step(s, i, m).pcs[j]; p.entry.putAt <= p.at < p.entry.putAt + p.entry.ttl
  {
  }

  lemma {:induction false} CacheStep(sh: Shards, s: State, a: Action)
    requires Inv(s) && Coherent(sh, s) && Aged(s) && Enabled(sh, s, a)
    ensures Coherent(sh, Apply(sh, s, a)) && Aged(Apply(sh, s, a))
  {
    match a
    case Caller(i, m) =>
      CoherentStep(sh, s, i, m);
      AgedStep(s, i, m);
    case Tick => SameTables(sh, s, Apply(sh, s, a));
    case Commit(t) => CoherentCommit(sh, s, t);
    case Sweep(w) => CoherentSweep(sh, s, w);
  }

  lemma {:induction false} SameTables(sh: Shards, s: State, t: State)
    requires Coherent(sh, s) && t.cache == s.cache && t.vers == s.vers && t.writers == s.writers
    ensures Coherent(sh, t)
  {
    forall k | k in t.cache && Unraced(t.cache[k])
      ensures t.cache[k].ver == Version(t, k.table) || Pending(sh, t, k)
    {
      if Pending(sh, s, k) {
        var w :| 0 <= w < |s.writers| && Awaits(sh, s.writers[w], k);
        assert Awaits(sh, t.writers[w], k);
      }
    }
  }

  lemma {:induction false} CacheRun(sh: Shards, s: State, run: seq<Action>)
    requires Inv(s) && Coherent(sh, s) && Aged(s) && Possible(sh, s, run)
    ensures Coherent(sh, After(sh, s, run)) && Aged(After(sh, s, run))
    decreases |run|
  {
    if run != [] {
      KeepInv(sh, s, run[0]);
      CacheStep(sh, s, run[0]);
      CacheRun(sh, Apply(sh, s, run[0]), run[1..]);
    }
  }

  /** No write to the table is committed but not yet fully invalidated. */
  predicate Settled(sh: Shards, s: State, table: string) {
    forall w :: 0 <= w < |s.writers| && s.writers[w].table == table ==> s.writers[w].next >= sh.count
  }

  // ----- Versions only grow -----

  predicate DatedPc(s: State, p: Pc)
    requires AtCell(p) ==> p.c < |s.cells|
  {
    p.Fetched? && p.out.Loaded? ==> p.out.ver <= Version(s, s.cells[p.c].key.table)
  }

  /** Nothing was read or stored at a version that is not reached yet, nor stored before it was read. */
  ghost predicate Dated(s: State)
    requires Handles(s)
  {
    && (forall i :: 0 <= i < |s.pcs| ==> DatedPc(s, s.pcs[i]))
    && (forall k :: k in s.cache ==> s.cache[k].ver <= s.cache[k].putVer <= Version(s, k.table))
  }

  lemma {:induction false} KeysStay(s: State, i: nat, m: Move)
    requires CanStep(s, i, m)
    ensures var t := Step(s, i, m);
            |s.cells| <= |t.cells| && forall c :: 0 <= c < |s.cells| ==> t.cells[c].key == s.cells[c].key
  {
    hide RemoveIf, Finish;
  }

  lemma {:induction false} DatedMover(s: State, i: nat, m: Move)
    requires CanStep(s, i, m) && DatedPc(s, s.pcs[i])
    requires i < |Step(s, i, m).pcs| && (AtCell(Step(s, i, m).pcs[i]) ==> Step(s, i, m).pcs[i].c < |Step(s, i, m).cells|)
    ensures DatedPc(Step(s, i, m), Step(s, i, m).pcs[i])
  {
    hide RemoveIf;
  }

  /** A caller's step leaves a cached entry as it was, or stores what the caller has just read. */
  lemma {:induction false} StoredDated(s: State, i: nat, m: Move, k: Key)
    requires Handles(s) && i < |s.pcs| && CanMove(s, s.pcs[i], m) && DatedPc(s, s.pcs[i]) && k in Step(s, i, m).cache
    ensures var t := Step(s, i, m);
            || (k in s.cache && t.cache[k] == s.cache[k])
            || t.cache[k].ver <= t.cache[k].putVer == Version(s, k.table)
  {
    if m.Store? {
      StoreIsDated(s, i, k);
    } else {
      CacheShrinks(s, i, m, k);
    }
  }

  lemma {:induction false} StoreIsDated(s: State, i: nat, k: Key)
    requires Handles(s) && i < |s.pcs| && s.pcs[i].Fetched? && DatedPc(s, s.pcs[i]) && k in StoreStep(s, i).cache
    ensures var cache := StoreStep(s, i).cache;
            || (k in s.cache && cache[k] == s.cache[k])
            || cache[k].ver <= cache[k].putVer == Version(s, k.table)
  {
  }

  lemma {:induction false} CacheShrinks(s: State, i: nat, m: Move, k: Key)
    requires CanStep(s, i, m) && !m.Store? && k in Step(s, i, m).cache
    ensures k in s.cache && Step(s, i, m).cache[k] == s.cache[k]
  {
    hide RemoveIf, Finish;
  }

  lemma {:induction false} DatedCaller(s: State, i: nat, m: Move)
    requires Handles(s) && Dated(s) && i < |s.pcs| && CanMove(s, s.pcs[i], m) && Handles(Step(s, i, m))
    ensures Dated(Step(s, i, m))
  {
    var t := Step(s, i, m);
    CallersLeaveTables(s, i, m);
    OnlyOneMoves(s, i, m);
    KeysStay(s, i, m);
    DatedMover(s, i, m);
    hide Step;
    forall k | k in t.cache
      ensures t.cache[k].ver <= t.cache[k].putVer <= Version(t, k.table)
    {
      StoredDated(s, i, m, k);
    }
    forall j | 0 <= j < |t.pcs|
      ensures DatedPc(t, t.pcs[j])
    {
      assert DatedPc(s, s.pcs[j]);
    }
  }

  lemma {:induction false} DatedOther(s: State, t: State)
    requires Handles(s) && Handles(t) && Dated(s) && t.pcs == s.pcs && t.cells == s.cells
    requires forall table :: Version(s, table) <= Version(t, table)
    requires forall k :: k in t.cache ==> k in s.cache && t.cache[k] == s.cache[k]
    ensures Dated(t)
  {
    hide Version;
    forall j | 0 <= j < |t.pcs|
      ensures DatedPc(t, t.pcs[j])
    {
      assert DatedPc(s, s.pcs[j]);
    }
  }

  lemma {:induction false} DatedRun(sh: Shards, s: State, run: seq<Action>)
    requires Inv(s) && Dated(s) && Possible(sh, s, run)
    ensures Inv(After(sh, s, run)) && Dated(After(sh, s, run))
    decreases |run|
  {
    hide Inv, Dated, Step;
    if run != [] {
      var t := Apply(sh, s, run[0]);
      KeepInv(sh, s, run[0]);
      HandlesOf(s);
      HandlesOf(t);
      if run[0].Caller? {
        DatedCaller(s, run[0].i, run[0].move);
      } else {
        DatedOther(s, t);
      }
      DatedRun(sh, t, run[1..]);
    }
  }

  lemma {:induction false} HandlesOf(s: State)
    requires Inv(s)
    ensures Handles(s)
  {
  }

  // ----- Agreement -----

  /**
   * Once its table is settled, a cached entry was read at the current version of the table exactly when no write was
   * committed between its read and its put.
   */
  lemma {:induction false} CacheAgrees(sh: Shards, s0: State, run: seq<Action>, k: Key)
    requires ShardsOk(sh) && Initial(s0) && Possible(sh, s0, run)
    requires k in After(sh, s0, run).cache && Settled(sh, After(sh, s0, run), k.table)
    ensures var s := After(sh, s0, run); s.cache[k].ver == Version(s, k.table) <==> Unraced(s.cache[k])
  {
    StartInv(s0);
    CacheRun(sh, s0, run);
    DatedRun(sh, s0, run);
  }

  /** Every hit, raced or not, is served less than its entry's time to live after the entry was stored. */
  lemma {:induction false} HitsAreYoung(sh: Shards, s0: State, run: seq<Action>, i: nat)
    requires Initial(s0) && Possible(sh, s0, run)
    requires i < |After(sh, s0, run).pcs| && After(sh, s0, run).pcs[i].Served?
    ensures var p := After(sh, s0, run).pcs[i]; p.entry.putAt <= p.at < p.entry.putAt + p.entry.ttl
  {
    StartInv(s0);
    CacheRun(sh, s0, run);
  }
}
