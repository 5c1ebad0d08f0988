/** Taking an unresolved attempt away from a live caller is exactly what lets two loaders run for one key. */
module SingleFlightDetach {
  import opened Values
  import opened SingleFlight
  import opened SingleFlightInvariant
  import opened SingleFlightRuns

  // ----- What can be reached -----

  /** `t` can be reached from `s`. */
  ghost predicate Reaches(sh: Shards, s: State, t: State) {
    exists run :: Possible(sh, s, run) && After(sh, s, run) == t
  }

  lemma {:induction false} ReachesOn(sh: Shards, s: State, t: State, u: State)
    requires Reaches(sh, s, t) && Reaches(sh, t, u)
    ensures Reaches(sh, s, u)
  {
    var a :| Possible(sh, s, a) && After(sh, s, a) == t;
    var b :| Possible(sh, t, b) && After(sh, t, b) == u;
    Chain(sh, s, a, b);
  }

  lemma {:induction false} ReachesSelf(sh: Shards, s: State)
    ensures Reaches(sh, s, s)
  {
    Nothing(sh, s);
  }

  lemma {:induction false} Takes(sh: Shards, s: State, t: State, a: Action)
    requires Reaches(sh, s, t) && Enabled(sh, t, a)
    ensures Reaches(sh, s, Apply(sh, t, a))
  {
    hide Enabled, Apply;
    Once(sh, t, a);
    ReachesOn(sh, s, t, Apply(sh, t, a));
  }

  lemma {:induction false} Ticks(sh: Shards, s: State, n: nat)
    ensures Reaches(sh, s, s.(now := s.now + n))
  {
    if n == 0 {
      ReachesSelf(sh, s);
    } else {
      Ticks(sh, s, n - 1);
      Takes(sh, s, s.(now := s.now + (n - 1)), Tick);
    }
  }

  // ----- A free caller starts a loader for a key that is not registered -----

  lemma {:induction false} ComesToMiss(sh: Shards, s: State, i: nat, key: Key) returns (t: State)
    requires i < |s.pcs| && Free(s.pcs[i]) && (AtCell(s.pcs[i]) ==> s.pcs[i].c < |s.cells|)
    ensures Reaches(sh, s, t)
    ensures t.pcs == s.pcs[i := Missed(key, 0)] && t.cells == s.cells && t.inFlight == s.inFlight
  {
    hide Reaches;
    var wait := if key in s.cache then s.cache[key].putAt + s.cache[key].ttl else 0;
    var s1 := s.(now := s.now + wait);
    Ticks(sh, s, wait);
    var s2 := Goto(s1, i, Start(key, 0));
    Takes(sh, s, s1, Caller(i, Begin(key, 0)));
    Takes(sh, s, s2, Caller(i, Look));
    t := LookStep(s2, i);
    if key in s.cache {
      assert s2.pcs[i] == Start(key, 0) && s2.cache == s.cache;
      assert t.pcs[i] == Expired(key, 0);
      Takes(sh, s, t, Caller(i, EvictExpired));
      t := ExpireStep(t, i);
    }
  }

  lemma {:induction false} StartsLoader(sh: Shards, s: State, i: nat, key: Key) returns (t: State)
    requires i < |s.pcs| && Free(s.pcs[i]) && (AtCell(s.pcs[i]) ==> s.pcs[i].c < |s.cells|) && key !in s.inFlight
    ensures Reaches(sh, s, t)
    ensures t.pcs == s.pcs[i := Running(|s.cells|, 0)] && t.cells == s.cells + [Cell(key, true, None, 1)]
  {
    hide Reaches;
    var c := |s.cells|;
    var s1 := ComesToMiss(sh, s, i, key);
    Takes(sh, s, s1, Caller(i, FindOrCreate));
    var s2 := FindStep(s1, i);
    Takes(sh, s, s2, Caller(i, Join));
    var s3 := JoinStep(s2, i);
    assert s3.cells[c] == Cell(key, false, None, 1);
    Takes(sh, s, s3, Caller(i, TakePermit));
    t := TakeStep(s3, i);
    assert s3.cells == s.cells + [Cell(key, false, None, 1)];
  }

  // ----- A live caller's attempt gets a loader -----

  /** Apart from the caller `j`, and from one cell's permit and waiters, nothing has changed. */
  predicate OnlyMoved(s: State, t: State, j: nat) {
    && |t.pcs| == |s.pcs| && j < |s.pcs| && t.pcs == s.pcs[j := t.pcs[j]] && t.inFlight == s.inFlight
    && |t.cells| == |s.cells| && forall c :: 0 <= c < |s.cells| ==> t.cells[c].key == s.cells[c].key
  }

  lemma {:induction false} GetsLoader(sh: Shards, s: State, j: nat) returns (t: State, r: nat)
    requires Handles(s) && Manned(s) && j < |s.pcs| && Live(s.pcs[j]) && s.cells[s.pcs[j].c].result.None?
    ensures Reaches(sh, s, t) && OnlyMoved(s, t, j)
    ensures r < |t.pcs| && RunsCell(t.pcs[r], s.pcs[j].c)
  {
    var c := s.pcs[j].c;
    if s.cells[c].busy {
      assert RunnerAt(s, c);
      r :| 0 <= r < |s.pcs| && RunsCell(s.pcs[r], c);
      t := s;
      ReachesSelf(sh, s);
    } else {
      r := j;
      if Runner(s.pcs[j]) {
        t := s;
        ReachesSelf(sh, s);
      } else {
        t := TakesOver(sh, s, j);
      }
    }
  }

  lemma {:induction false} TakesOver(sh: Shards, s: State, j: nat) returns (t: State)
    requires j < |s.pcs| && (s.pcs[j].Cloned? || s.pcs[j].Joined?) && s.pcs[j].c < |s.cells|
    requires !s.cells[s.pcs[j].c].busy && s.cells[s.pcs[j].c].result.None?
    ensures Reaches(sh, s, t) && OnlyMoved(s, t, j) && t.pcs[j].Running? && t.pcs[j].c == s.pcs[j].c
  {
    hide Reaches;
    ReachesSelf(sh, s);
    t := s;
    if s.pcs[j].Cloned? {
      Takes(sh, s, s, Caller(j, Join));
      t := JoinStep(s, j);
    }
    Takes(sh, s, t, Caller(j, TakePermit));
    t := TakeStep(t, j);
  }

  // ----- Two loaders -----

  /** After such a step some continuation has two loaders running for the key at once. */
  lemma {:induction false} DetachedDoubles(sh: Shards, s: State, i: nat) returns (t: State)
    requires Inv(s) && Manned(s) && Detaches(s, Caller(i, Evict))
    ensures Enabled(sh, s, Caller(i, Evict)) && Reaches(sh, EvictStep(s, i), t)
    ensures Handles(t) && !OneLoaderPerKeyIn(t)
  {
    hide Reaches, Manned, Permits, Counted, Outcomes, NoLeak, OneLoaderPerKeyIn;
    var c := s.pcs[i].c;
    var key := s.cells[c].key;
    var j :| 0 <= j < |s.pcs| && LiveAt(s.pcs[j], c);
    var s1 := EvictStep(s, i);
    StillManned(s, i);
    KeepInv(sh, s, Caller(i, Evict));
    var s2, r := GetsLoader(sh, s1, j);
    ReachesInv(sh, s1, s2);
    t := StartsLoader(sh, s2, i, key);
    ReachesOn(sh, s1, s2, t);
    ReachesInv(sh, s2, t);
    TwoLoaders(t, i, r, key);
  }

  lemma {:induction false} TwoLoaders(t: State, i: nat, r: nat, key: Key)
    requires Handles(t) && i != r && i < |t.pcs| && r < |t.pcs| && Runner(t.pcs[i]) && Runner(t.pcs[r])
    requires t.cells[t.pcs[i].c].key == key && t.cells[t.pcs[r].c].key == key
    ensures !OneLoaderPerKeyIn(t)
  {
  }

  lemma {:induction false} StillManned(s: State, i: nat)
    requires Handles(s) && Manned(s) && i < |s.pcs| && s.pcs[i].Evicting?
    ensures Manned(EvictStep(s, i))
  {
    hide Manned;
    KeepManned(s, i, Evict);
  }

  lemma {:induction false} ReachesInv(sh: Shards, s: State, t: State)
    requires Inv(s) && Reaches(sh, s, t)
    ensures Inv(t)
  {
    hide Inv;
    var run :| Possible(sh, s, run) && After(sh, s, run) == t;
    RunInv(sh, s, run);
  }

  /** In every run: one loader per key up to the first detachment, and from each detachment a way to two. */
  lemma {:induction false} DetachmentDoubles(sh: Shards, s0: State, run: seq<Action>, i: nat) returns (more: seq<Action>)
    requires Initial(s0) && Possible(sh, s0, run) && Detaches(After(sh, s0, run), Caller(i, Evict))
    ensures Possible(sh, s0, run + [Caller(i, Evict)] + more)
    ensures var t := After(sh, s0, run + [Caller(i, Evict)] + more); Handles(t) && !OneLoaderPerKeyIn(t)
  {
    hide Inv, Manned, Detaches;
    StartInv(s0);
    StartManned(s0);
    RunManned(sh, s0, run);
    var s := After(sh, s0, run);
    var t := DetachedDoubles(sh, s, i);
    Once(sh, s, Caller(i, Evict));
    Chain(sh, s0, run, [Caller(i, Evict)]);
    more :| Possible(sh, EvictStep(s, i), more) && After(sh, EvictStep(s, i), more) == t;
    Chain(sh, s0, run + [Caller(i, Evict)], more);
  }

  lemma {:induction false} StartManned(s: State)
    requires Initial(s)
    ensures Manned(s)
  {
  }
}
