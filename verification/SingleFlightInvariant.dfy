/** What every step of the single-flight protocol keeps. */
module SingleFlightInvariant {
  import opened Values
  import opened SingleFlight

  /** Handles point at attempts for the right key. */
  predicate Handles(s: State) {
    && (forall i :: 0 <= i < |s.pcs| && AtCell(s.pcs[i]) ==> s.pcs[i].c < |s.cells|)
    && (forall k :: k in s.inFlight ==> s.inFlight[k] < |s.cells| && s.cells[s.inFlight[k]].key == k)
  }

  /** A runner holds the permit of its unresolved cell, and is the only one to. */
  predicate Permits(s: State)
    requires Handles(s)
  {
    && (forall i :: 0 <= i < |s.pcs| && Runner(s.pcs[i]) ==>
          s.cells[s.pcs[i].c].busy && s.cells[s.pcs[i].c].result.None?)
    && (forall i, j :: 0 <= i < j < |s.pcs| && Runner(s.pcs[i]) && Runner(s.pcs[j]) ==> s.pcs[i].c != s.pcs[j].c)
  }

  function Guards(pcs: seq<Pc>, c: nat): set<nat> {
    set i: nat | i < |pcs| && Guarded(pcs[i]) && pcs[i].c == c
  }

  predicate Counted(s: State) {
    forall c :: 0 <= c < |s.cells| ==> s.cells[c].waiters == |Guards(s.pcs, c)|
  }

  predicate Agrees(s: State, p: Pc)
    requires AtCell(p) ==> p.c < |s.cells|
  {
    && (p.Resolved? || p.Unlisted? || p.Returned? ==> s.cells[p.c].result == Some(p.out))
    && (p.LastOut? || p.Evicting? ==> p.ret.Some? ==> s.cells[p.c].result == p.ret)
  }

  /** An outcome in a caller's hands is the result of its cell. */
  predicate Outcomes(s: State)
    requires Handles(s)
  {
    forall i :: 0 <= i < |s.pcs| ==> Agrees(s, s.pcs[i])
  }

  /** A caller that has yet to take its cell off the register, should nobody else do so. */
  predicate Covers(p: Pc, c: nat, resolved: bool) {
    if resolved then p.Resolved? && p.c == c
    else (p.Cloned? || p.Joined? || p.Running? || p.Fetched? || p.Stored? || p.Cancelled? || p.LastOut? || p.Evicting?)
         && p.c == c
  }

  ghost predicate Covered(s: State, k: Key)
    requires Handles(s) && k in s.inFlight
  {
    exists i :: 0 <= i < |s.pcs| && Covers(s.pcs[i], s.inFlight[k], s.cells[s.inFlight[k]].result.Some?)
  }

  ghost predicate NoLeak(s: State)
    requires Handles(s)
  {
    forall k :: k in s.inFlight ==> Covered(s, k)
  }

  ghost predicate Inv(s: State) {
    Handles(s) && Permits(s) && Counted(s) && Outcomes(s) && NoLeak(s)
  }

  lemma {:induction false} StartInv(s: State)
    requires Initial(s)
    ensures Inv(s)
  {
  }

  // ----- Every step keeps the invariant -----

  predicate GuardAt(p: Pc, c: nat) {
    Guarded(p) && p.c == c
  }

  lemma {:induction false} GuardsAre(pcs: seq<Pc>, c: nat)
    ensures forall i: nat :: i in Guards(pcs, c) <==> i < |pcs| && GuardAt(pcs[i], c)
  {
    hide Guarded;
  }

  lemma {:induction false} GuardsMove(pcs: seq<Pc>, i: nat, q: Pc, c: nat)
    requires i < |pcs|
    ensures |Guards(pcs[i := q], c)|
         == |Guards(pcs, c)| + (if GuardAt(q, c) then 1 else 0) - (if GuardAt(pcs[i], c) then 1 else 0)
  {
    hide *;
    var before, after := Guards(pcs, c), Guards(pcs[i := q], c);
    GuardsAre(pcs, c);
    GuardsAre(pcs[i := q], c);
    forall j: nat | j != i
      ensures j in after <==> j in before
    {
      assert j < |pcs| ==> pcs[i := q][j] == pcs[j];
    }
    SetMove(before, after, i);
  }

  lemma {:induction false} SetMove(before: set<nat>, after: set<nat>, i: nat)
    requires forall j: nat :: j != i ==> (j in after <==> j in before)
    ensures |after| == |before| + (if i in after then 1 else 0) - (if i in before then 1 else 0)
  {
    assert after - {i} == before - {i};
    assert i in after ==> after == (after - {i}) + {i};
    assert i in before ==> before == (before - {i}) + {i};
  }

  /** The waiter counts stay right when one caller moves and its cell's count follows. */
  lemma {:induction false} CountMove(s: State, i: nat, q: Pc, cells: seq<Cell>)
    requires Counted(s) && i < |s.pcs| && |cells| == |s.cells|
    requires forall c :: 0 <= c < |cells| ==>
               cells[c].waiters
               == s.cells[c].waiters + (if GuardAt(q, c) then 1 else 0) - (if GuardAt(s.pcs[i], c) then 1 else 0)
    ensures forall c :: 0 <= c < |cells| ==> cells[c].waiters == |Guards(s.pcs[i := q], c)|
  {
    forall c | 0 <= c < |cells|
      ensures cells[c].waiters == |Guards(s.pcs[i := q], c)|
    {
      GuardsMove(s.pcs, i, q, c);
    }
  }

  /** Registered cells stay covered when one caller moves from one covering place to another. */
  lemma {:induction false} CoverMove(s: State, t: State, i: nat)
    requires Handles(s) && Handles(t) && NoLeak(s)
    requires i < |s.pcs| && |t.pcs| == |s.pcs| && t.pcs == s.pcs[i := t.pcs[i]]
    requires forall k :: k in t.inFlight ==>
               && k in s.inFlight && t.inFlight[k] == s.inFlight[k]
               && var c := s.inFlight[k];
                  && t.cells[c].result.Some? == s.cells[c].result.Some?
                  && (Covers(s.pcs[i], c, s.cells[c].result.Some?) ==> Covers(t.pcs[i], c, s.cells[c].result.Some?))
    ensures NoLeak(t)
  {
    forall k | k in t.inFlight
      ensures Covered(t, k)
    {
      assert Covered(s, k);
      var c := s.inFlight[k];
      var j :| 0 <= j < |s.pcs| && Covers(s.pcs[j], c, s.cells[c].result.Some?);
      assert Covers(t.pcs[j], c, t.cells[c].result.Some?);
    }
  }

  lemma {:induction false} LookIs(s: State, i: nat)
    requires i < |s.pcs| && s.pcs[i].Start?
    ensures var t := LookStep(s, i);
            && |t.pcs| == |s.pcs| && t == s.(pcs := s.pcs[i := t.pcs[i]])
            && (t.pcs[i].Missed? || t.pcs[i].Expired? || t.pcs[i].Served?)
  {
  }

  lemma {:induction false} KeepLook(s: State, i: nat)
    requires Inv(s) && i < |s.pcs| && s.pcs[i].Start?
    ensures Inv(LookStep(s, i))
  {
    hide LookStep;
    LookIs(s, i);
    var t := LookStep(s, i);
    CountMove(s, i, t.pcs[i], t.cells);
    CoverMove(s, t, i);
  }

  lemma {:induction false} KeepBegin(s: State, i: nat, key: Key, ttl: nat)
    requires Inv(s) && i < |s.pcs| && Free(s.pcs[i])
    ensures Inv(Goto(s, i, Start(key, ttl)))
  {
    var t := Goto(s, i, Start(key, ttl));
    CountMove(s, i, t.pcs[i], t.cells);
    CoverMove(s, t, i);
  }

  lemma {:induction false} KeepExpire(s: State, i: nat)
    requires Inv(s) && i < |s.pcs| && s.pcs[i].Expired?
    ensures Inv(ExpireStep(s, i))
  {
    var t := ExpireStep(s, i);
    CountMove(s, i, t.pcs[i], t.cells);
    CoverMove(s, t, i);
  }

  lemma {:induction false} KeepFind(s: State, i: nat)
    requires Inv(s) && i < |s.pcs| && s.pcs[i].Missed?
    ensures Inv(FindStep(s, i))
  {
    if s.pcs[i].key in s.inFlight {
      KeepClone(s, i);
    } else {
      FindCovers(s, i);
      FindCounts(s, i);
      FindPermits(s, i);
    }
  }

  lemma {:induction false} KeepClone(s: State, i: nat)
    requires Inv(s) && i < |s.pcs| && s.pcs[i].Missed? && s.pcs[i].key in s.inFlight
    ensures Inv(FindStep(s, i))
  {
    hide FindStep, Covered;
    CloneIs(s, i);
    var t := FindStep(s, i);
    ClonePermits(s, i);
    hide Permits, Outcomes;
    CountMove(s, i, t.pcs[i], t.cells);
    CoverMove(s, t, i);
  }

  lemma {:induction false} ClonePermits(s: State, i: nat)
    requires Handles(s) && Permits(s) && Outcomes(s) && i < |s.pcs| && s.pcs[i].Missed? && s.pcs[i].key in s.inFlight
    ensures Handles(FindStep(s, i)) && Permits(FindStep(s, i)) && Outcomes(FindStep(s, i))
  {
  }

  lemma {:induction false} CloneIs(s: State, i: nat)
    requires i < |s.pcs| && s.pcs[i].Missed? && s.pcs[i].key in s.inFlight
    ensures FindStep(s, i) == s.(pcs := s.pcs[i := Cloned(s.inFlight[s.pcs[i].key], s.pcs[i].ttl)])
  {
  }

  lemma {:induction false} FindPermits(s: State, i: nat)
    requires Inv(s) && i < |s.pcs| && s.pcs[i].Missed? && s.pcs[i].key !in s.inFlight
    ensures Handles(FindStep(s, i)) && Permits(FindStep(s, i)) && Outcomes(FindStep(s, i))
  {
  }

  lemma {:induction false} FindCounts(s: State, i: nat)
    requires Handles(s) && Counted(s) && i < |s.pcs| && s.pcs[i].Missed? && s.pcs[i].key !in s.inFlight
    ensures Counted(FindStep(s, i))
  {
    var t := FindStep(s, i);
    CountMove(s, i, t.pcs[i], s.cells);
    assert Guards(t.pcs, |s.cells|) == {};
  }

  lemma {:induction false} FindCovers(s: State, i: nat)
    requires Handles(s) && NoLeak(s) && i < |s.pcs| && s.pcs[i].Missed? && s.pcs[i].key !in s.inFlight
    ensures Handles(FindStep(s, i)) && NoLeak(FindStep(s, i))
  {
    var t := FindStep(s, i);
    forall k | k in t.inFlight
      ensures Covered(t, k)
    {
      if k == s.pcs[i].key {
        assert Covers(t.pcs[i], |s.cells|, false);
      } else {
        assert Covered(s, k);
        var c := s.inFlight[k];
        var j :| 0 <= j < |s.pcs| && Covers(s.pcs[j], c, s.cells[c].result.Some?);
        assert Covers(t.pcs[j], c, t.cells[c].result.Some?);
      }
    }
  }

  lemma {:induction false} KeepJoin(s: State, i: nat)
    requires Inv(s) && i < |s.pcs| && s.pcs[i].Cloned?
    ensures Inv(JoinStep(s, i))
  {
    var t := JoinStep(s, i);
    CountMove(s, i, t.pcs[i], t.cells);
    CoverMove(s, t, i);
  }

  lemma {:induction false} KeepTake(s: State, i: nat)
    requires Inv(s) && i < |s.pcs| && s.pcs[i].Joined?
    requires !s.cells[s.pcs[i].c].busy && s.cells[s.pcs[i].c].result.None?
    ensures Inv(TakeStep(s, i))
  {
    var t := TakeStep(s, i);
    CountMove(s, i, t.pcs[i], t.cells);
    CoverMove(s, t, i);
  }

  lemma {:induction false} KeepQuery(s: State, i: nat, error: Option<string>)
    requires Inv(s) && i < |s.pcs| && s.pcs[i].Running?
    ensures Inv(QueryStep(s, i, error))
  {
    var t := QueryStep(s, i, error);
    CountMove(s, i, t.pcs[i], t.cells);
    CoverMove(s, t, i);
  }

  lemma {:induction false} KeepStore(s: State, i: nat)
    requires Inv(s) && i < |s.pcs| && s.pcs[i].Fetched?
    ensures Inv(StoreStep(s, i))
  {
    var t := Goto(s, i, Stored(s.pcs[i].c, s.pcs[i].out));
    CountMove(s, i, t.pcs[i], t.cells);
    CoverMove(s, t, i);
    SameProtocol(t, StoreStep(s, i));
  }

  lemma {:induction false} KeepResolve(s: State, i: nat)
    requires Inv(s) && i < |s.pcs| && s.pcs[i].Stored?
    ensures Inv(ResolveStep(s, i))
  {
    var c, t := s.pcs[i].c, ResolveStep(s, i);
    CountMove(s, i, t.pcs[i], t.cells);
    ResolveCovers(s, i);
  }

  lemma {:induction false} ResolveCovers(s: State, i: nat)
    requires Handles(s) && NoLeak(s) && i < |s.pcs| && s.pcs[i].Stored?
    ensures Handles(ResolveStep(s, i)) && NoLeak(ResolveStep(s, i))
  {
    var t := ResolveStep(s, i);
    forall k | k in t.inFlight
      ensures Covered(t, k)
    {
      var c := s.inFlight[k];
      if c == s.pcs[i].c {
        assert Covers(t.pcs[i], c, true);
      } else {
        assert Covered(s, k);
        var j :| 0 <= j < |s.pcs| && Covers(s.pcs[j], c, s.cells[c].result.Some?);
        assert Covers(t.pcs[j], c, t.cells[c].result.Some?);
      }
    }
  }

  lemma {:induction false} KeepWake(s: State, i: nat)
    requires Inv(s) && i < |s.pcs| && s.pcs[i].Joined? && s.cells[s.pcs[i].c].result.Some?
    ensures Inv(WakeStep(s, i))
  {
    var t := WakeStep(s, i);
    CountMove(s, i, t.pcs[i], t.cells);
    CoverMove(s, t, i);
  }

  lemma {:induction false} KeepUnlist(s: State, i: nat)
    requires Inv(s) && i < |s.pcs| && s.pcs[i].Resolved?
    ensures Inv(UnlistStep(s, i))
  {
    var t := UnlistStep(s, i);
    CountMove(s, i, t.pcs[i], t.cells);
    CoverMove(s, t, i);
  }

  lemma {:induction false} KeepCancel(s: State, i: nat)
    requires Inv(s) && i < |s.pcs| && Awaiting(s.pcs[i])
    ensures Inv(CancelStep(s, i))
  {
    var t := CancelStep(s, i);
    CancelPermits(s, i);
    CountMove(s, i, t.pcs[i], t.cells);
    CoverMove(s, t, i);
  }

  lemma {:induction false} CancelPermits(s: State, i: nat)
    requires Handles(s) && Permits(s) && Outcomes(s) && i < |s.pcs| && Awaiting(s.pcs[i])
    ensures Handles(CancelStep(s, i)) && Permits(CancelStep(s, i)) && Outcomes(CancelStep(s, i))
  {
    CancelOutcomes(s, i);
    hide Agrees;
  }

  lemma {:induction false} CancelOutcomes(s: State, i: nat)
    requires Handles(s) && Outcomes(s) && i < |s.pcs| && Awaiting(s.pcs[i])
    ensures Handles(CancelStep(s, i)) && Outcomes(CancelStep(s, i))
  {
  }

  lemma {:induction false} KeepDrop(s: State, i: nat)
    requires Inv(s) && i < |s.pcs| && (s.pcs[i].Unlisted? || s.pcs[i].Cancelled?)
    ensures Inv(DropStep(s, i))
  {
    var t := DropStep(s, i);
    CountMove(s, i, t.pcs[i], t.cells);
    DropCovers(s, i);
  }

  /** If the dropped guard was not the last one, another guard of an unresolved cell covers it. */
  lemma {:induction false} DropCovers(s: State, i: nat)
    requires Inv(s) && i < |s.pcs| && (s.pcs[i].Unlisted? || s.pcs[i].Cancelled?)
    ensures Handles(DropStep(s, i)) && NoLeak(DropStep(s, i))
  {
    var d, t := s.pcs[i].c, DropStep(s, i);
    forall k | k in t.inFlight
      ensures Covered(t, k)
    {
      assert Covered(s, k);
      var c := s.inFlight[k];
      var j :| 0 <= j < |s.pcs| && Covers(s.pcs[j], c, s.cells[c].result.Some?);
      if j == i && s.cells[d].waiters != 1 {
        j := AnotherGuard(s, i);
      }
      assert Covers(t.pcs[j], c, t.cells[c].result.Some?);
    }
  }

  lemma {:induction false} AnotherGuard(s: State, i: nat) returns (j: nat)
    requires Inv(s) && i < |s.pcs| && s.pcs[i].Cancelled?
    requires s.cells[s.pcs[i].c].waiters != 1 && s.cells[s.pcs[i].c].result.None?
    ensures j < |s.pcs| && j != i && Covers(s.pcs[j], s.pcs[i].c, false)
  {
    var others := Guards(s.pcs, s.pcs[i].c) - {i};
    assert i in Guards(s.pcs, s.pcs[i].c);
    assert |others| == s.cells[s.pcs[i].c].waiters - 1 > 0;
    j :| j in others;
    assert Agrees(s, s.pcs[j]);
  }

  lemma {:induction false} KeepCheck(s: State, i: nat)
    requires Inv(s) && i < |s.pcs| && s.pcs[i].LastOut?
    ensures Inv(CheckStep(s, i))
  {
    var t := CheckStep(s, i);
    assert Agrees(s, s.pcs[i]);
    CountMove(s, i, t.pcs[i], t.cells);
    CoverMove(s, t, i);
  }

  lemma {:induction false} KeepEvict(s: State, i: nat)
    requires Inv(s) && i < |s.pcs| && s.pcs[i].Evicting?
    ensures Inv(EvictStep(s, i))
  {
    var t := EvictStep(s, i);
    assert Agrees(s, s.pcs[i]);
    CountMove(s, i, t.pcs[i], t.cells);
    CoverMove(s, t, i);
  }

  lemma {:induction false} KeepStep(s: State, i: nat, m: Move)
    requires Inv(s) && i < |s.pcs| && CanMove(s, s.pcs[i], m)
    ensures Inv(Step(s, i, m))
  {
    match m
    case Begin(key, ttl) => KeepBegin(s, i, key, ttl);
    case Look => KeepLook(s, i);
    case EvictExpired => KeepExpire(s, i);
    case FindOrCreate => KeepFind(s, i);
    case Join => KeepJoin(s, i);
    case TakePermit => KeepTake(s, i);
    case Query(error) => KeepQuery(s, i, error);
    case Store => KeepStore(s, i);
    case Resolve => KeepResolve(s, i);
    case Wake => KeepWake(s, i);
    case Unlist => KeepUnlist(s, i);
    case Cancel => KeepCancel(s, i);
    case DropGuard => KeepDrop(s, i);
    case CheckLast => KeepCheck(s, i);
    case Evict => KeepEvict(s, i);
  }

  /** Handles, permits, waiter counts, outcomes and the register are all as they should be after every step. */
  lemma {:induction false} KeepInv(sh: Shards, s: State, a: Action)
    requires Inv(s) && Enabled(sh, s, a)
    ensures Inv(Apply(sh, s, a))
  {
    match a
    case Caller(i, m) => KeepStep(s, i, m);
    case Tick => SameProtocol(s, Apply(sh, s, a));
    case Commit(t) => SameProtocol(s, Apply(sh, s, a));
    case Sweep(w) => SameProtocol(s, Apply(sh, s, a));
  }

  lemma {:induction false} SameProtocol(s: State, t: State)
    requires Inv(s) && t.inFlight == s.inFlight && t.cells == s.cells && t.pcs == s.pcs
    ensures Inv(t)
  {
    forall k | k in t.inFlight
      ensures Covered(t, k)
    {
      assert Covered(s, k);
    }
  }
}
