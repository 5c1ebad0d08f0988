/** The single-flight protocol over whole runs. */
module SingleFlightRuns {
  import opened Values
  import opened SingleFlight
  import opened SingleFlightInvariant

  // ----- Putting runs together -----

  lemma {:induction false} Chain(sh: Shards, s: State, a: seq<Action>, b: seq<Action>)
    requires Possible(sh, s, a) && Possible(sh, After(sh, s, a), b)
    ensures Possible(sh, s, a + b) && After(sh, s, a + b) == After(sh, After(sh, s, a), b)
    decreases |a|
  {
    hide Enabled, Apply;
    if a == [] {
      assert a + b == b;
    } else {
      Chain(sh, Apply(sh, s, a[0]), a[1..], b);
      assert (a + b)[1..] == a[1..] + b;
    }
  }

  lemma {:induction false} Once(sh: Shards, s: State, a: Action)
    requires Enabled(sh, s, a)
    ensures Possible(sh, s, [a]) && After(sh, s, [a]) == Apply(sh, s, a)
  {
    hide Enabled, Apply;
    assert [a][1..] == [];
    Nothing(sh, Apply(sh, s, a));
  }

  lemma {:induction false} Nothing(sh: Shards, s: State)
    ensures Possible(sh, s, []) && After(sh, s, []) == s
  {
  }

  lemma {:induction false} Extend(sh: Shards, s: State, run: seq<Action>, a: Action)
    requires Possible(sh, s, run) && Enabled(sh, After(sh, s, run), a)
    ensures Possible(sh, s, run + [a]) && After(sh, s, run + [a]) == Apply(sh, After(sh, s, run), a)
  {
    hide Enabled, Apply;
    Once(sh, After(sh, s, run), a);
    Chain(sh, s, run, [a]);
  }

  lemma {:induction false} RunInv(sh: Shards, s: State, run: seq<Action>)
    requires Inv(s) && Possible(sh, s, run)
    ensures Inv(After(sh, s, run))
    decreases |run|
  {
    if run != [] {
      KeepInv(sh, s, run[0]);
      RunInv(sh, Apply(sh, s, run[0]), run[1..]);
    }
  }

  // ----- One loader per attempt, one outcome per attempt, no leak -----

  predicate HasOutcome(p: Pc) {
    p.Resolved? || p.Unlisted? || p.Returned?
  }

  predicate Elsewhere(p: Pc) {
    Free(p) || p.Start? || p.Expired? || p.Missed?
  }

  ghost predicate OneLoaderPerAttempt(s: State) {
    forall i, j :: 0 <= i < |s.pcs| && 0 <= j < |s.pcs| && Runner(s.pcs[i]) && Runner(s.pcs[j]) ==>
                     s.pcs[i].c == s.pcs[j].c ==> i == j
  }

  ghost predicate OneOutcomePerAttempt(s: State) {
    forall i, j :: 0 <= i < |s.pcs| && 0 <= j < |s.pcs| && HasOutcome(s.pcs[i]) && HasOutcome(s.pcs[j]) ==>
                     s.pcs[i].c == s.pcs[j].c ==> s.pcs[i].out == s.pcs[j].out
  }

  lemma {:induction false} OutcomesAgree(s: State)
    requires Handles(s) && Outcomes(s)
    ensures OneOutcomePerAttempt(s)
  {
    forall i, j | 0 <= i < |s.pcs| && 0 <= j < |s.pcs| && HasOutcome(s.pcs[i]) && HasOutcome(s.pcs[j])
      ensures s.pcs[i].c == s.pcs[j].c ==> s.pcs[i].out == s.pcs[j].out
    {
      assert Agrees(s, s.pcs[i]) && Agrees(s, s.pcs[j]);
    }
  }

  lemma {:induction false} EmptyRegister(s: State)
    requires Handles(s) && NoLeak(s) && forall i :: 0 <= i < |s.pcs| ==> Elsewhere(s.pcs[i])
    ensures s.inFlight == map[]
  {
    assert forall k :: k in s.inFlight ==> !Covered(s, k);
    assert s.inFlight.Keys == {};
  }

  /**
   * Whatever is interleaved or cancelled: at most one loader runs per attempt, all callers of one attempt get one
   * outcome, the waiter count is the number of callers between increment and decrement, and the register is empty
   * whenever no caller holds an attempt.
   */
  lemma {:induction false} SafeRuns(sh: Shards, s0: State, run: seq<Action>)
    requires Initial(s0) && Possible(sh, s0, run)
    ensures var s := After(sh, s0, run);
            && OneLoaderPerAttempt(s)
            && OneOutcomePerAttempt(s)
            && (forall c :: 0 <= c < |s.cells| ==> s.cells[c].waiters == |Guards(s.pcs, c)|)
            && ((forall i :: 0 <= i < |s.pcs| ==> Elsewhere(s.pcs[i])) ==> s.inFlight == map[])
  {
    StartInv(s0);
    RunInv(sh, s0, run);
    var s := After(sh, s0, run);
    OutcomesAgree(s);
    if forall i :: 0 <= i < |s.pcs| ==> Elsewhere(s.pcs[i]) {
      EmptyRegister(s);
    }
  }

  // ----- One loader per key -----

  /** A caller that runs the loader of its attempt, or may yet. */
  predicate Live(p: Pc) {
    p.Cloned? || p.Joined? || Runner(p)
  }

  predicate Registered(s: State, c: nat)
    requires c < |s.cells|
  {
    var k := s.cells[c].key;
    k in s.inFlight && s.inFlight[k] == c
  }

  predicate ListedPc(s: State, p: Pc)
    requires AtCell(p) ==> p.c < |s.cells|
  {
    Live(p) && s.cells[p.c].result.None? ==> Registered(s, p.c)
  }

  /** Every unresolved attempt that a live caller holds is the one on the register. */
  predicate Listed(s: State)
    requires Handles(s)
  {
    forall i :: 0 <= i < |s.pcs| ==> ListedPc(s, s.pcs[i])
  }

  /** The last waiter of an attempt is about to take it off the register, unresolved, while a live caller holds it. */
  ghost predicate Detaches(s: State, a: Action) {
    && a.Caller? && a.move.Evict? && a.i < |s.pcs| && s.pcs[a.i].Evicting? && s.pcs[a.i].c < |s.cells|
    && var c := s.pcs[a.i].c;
       && Registered(s, c) && s.cells[c].result.None?
       && exists j :: 0 <= j < |s.pcs| && LiveAt(s.pcs[j], c)
  }

  predicate LiveAt(p: Pc, c: nat) {
    Live(p) && p.c == c
  }

  lemma {:induction false} OnlyOneMoves(s: State, i: nat, m: Move)
    requires CanStep(s, i, m)
    ensures var t := Step(s, i, m); |t.pcs| == |s.pcs| && t.pcs == s.pcs[i := t.pcs[i]]
  {
    hide RemoveIf, Finish, Version;
  }

  /** A step that takes no cell off the register which a live caller holds unresolved. */
  ghost predicate ListedStep(s: State, t: State, i: nat)
    requires Handles(s) && i < |s.pcs|
  {
    && Handles(t) && |t.pcs| == |s.pcs| && t.pcs == s.pcs[i := t.pcs[i]]
    && |s.cells| <= |t.cells|
    && (forall c :: 0 <= c < |s.cells| ==> s.cells[c].result.Some? ==> t.cells[c].result.Some?)
    && (forall j :: 0 <= j < |s.pcs| && j != i && Live(s.pcs[j]) && s.cells[s.pcs[j].c].result.None? ==>
          Registered(s, s.pcs[j].c) ==> Registered(t, s.pcs[j].c))
  }

  lemma {:induction false} ListedFrame(s: State, t: State, i: nat)
    requires Handles(s) && Listed(s) && i < |s.pcs| && ListedStep(s, t, i) && ListedPc(t, t.pcs[i])
    ensures Listed(t)
  {
    hide Registered;
    forall j | 0 <= j < |t.pcs|
      ensures ListedPc(t, t.pcs[j])
    {
      assert ListedPc(s, s.pcs[j]);
    }
  }

  lemma {:induction false} KeepListed(s: State, i: nat, m: Move)
    requires Inv(s) && Listed(s) && i < |s.pcs| && CanMove(s, s.pcs[i], m) && !Detaches(s, Caller(i, m))
    requires Handles(Step(s, i, m))
    ensures Listed(Step(s, i, m))
  {
    assert ListedPc(s, s.pcs[i]) && Agrees(s, s.pcs[i]);
    if m.FindOrCreate? {
      ListedFind(s, i);
    } else if m.Unlist? {
      ListedUnlist(s, i);
    } else if m.Evict? {
      ListedEvict(s, i);
    } else {
      ListedOther(s, i, m);
    }
    ListedFrame(s, Step(s, i, m), i);
  }

  lemma {:induction false} ListedFind(s: State, i: nat)
    requires Handles(s) && i < |s.pcs| && s.pcs[i].Missed? && Handles(FindStep(s, i))
    ensures ListedStep(s, FindStep(s, i), i) && ListedPc(FindStep(s, i), FindStep(s, i).pcs[i])
  {
  }

  lemma {:induction false} ListedUnlist(s: State, i: nat)
    requires Handles(s) && i < |s.pcs| && s.pcs[i].Resolved? && Agrees(s, s.pcs[i]) && Handles(UnlistStep(s, i))
    ensures ListedStep(s, UnlistStep(s, i), i) && ListedPc(UnlistStep(s, i), UnlistStep(s, i).pcs[i])
  {
  }

  lemma {:induction false} ListedEvict(s: State, i: nat)
    requires Handles(s) && i < |s.pcs| && s.pcs[i].Evicting? && !Detaches(s, Caller(i, Evict)) && Handles(EvictStep(s, i))
    ensures ListedStep(s, EvictStep(s, i), i) && ListedPc(EvictStep(s, i), EvictStep(s, i).pcs[i])
  {
    forall j | 0 <= j < |s.pcs| && j != i && Live(s.pcs[j]) && s.cells[s.pcs[j].c].result.None? && Registered(s, s.pcs[j].c)
      ensures Registered(EvictStep(s, i), s.pcs[j].c)
    {
      assert LiveAt(s.pcs[j], s.pcs[j].c);
    }
  }

  lemma {:induction false} ListedOther(s: State, i: nat, m: Move)
    requires Handles(s) && i < |s.pcs| && CanMove(s, s.pcs[i], m)
    requires !m.FindOrCreate? && !m.Unlist? && !m.Evict?
    requires ListedPc(s, s.pcs[i]) && Handles(Step(s, i, m))
    ensures ListedStep(s, Step(s, i, m), i) && ListedPc(Step(s, i, m), Step(s, i, m).pcs[i])
  {
    OnlyOneMoves(s, i, m);
    ResultsStay(s, i, m);
    RegisterStays(s, i, m);
    LiveBefore(s, i, m);
  }

  lemma {:induction false} LiveBefore(s: State, i: nat, m: Move)
    requires CanStep(s, i, m) && !m.FindOrCreate? && i < |Step(s, i, m).pcs|
    ensures Live(Step(s, i, m).pcs[i]) ==> Live(s.pcs[i]) && s.pcs[i].c == Step(s, i, m).pcs[i].c
  {
    hide RemoveIf, Version;
  }

  lemma {:induction false} RegisterStays(s: State, i: nat, m: Move)
    requires CanStep(s, i, m)
    requires !m.FindOrCreate? && !m.Unlist? && !m.Evict?
    ensures var t := Step(s, i, m);
            && |t.cells| == |s.cells| && t.inFlight == s.inFlight
            && forall c :: 0 <= c < |s.cells| ==> t.cells[c].key == s.cells[c].key
  {
    hide Finish, Version;
  }

  /** At no point does a last waiter take an unresolved attempt away from a live caller. */
  ghost predicate NeverDetaches(sh: Shards, s: State, run: seq<Action>)
    requires Possible(sh, s, run)
    decreases |run|
  {
    run != [] ==> !Detaches(s, run[0]) && NeverDetaches(sh, Apply(sh, s, run[0]), run[1..])
  }

  lemma {:induction false} ListedRun(sh: Shards, s: State, run: seq<Action>)
    requires Inv(s) && Listed(s) && Possible(sh, s, run) && NeverDetaches(sh, s, run)
    ensures Inv(After(sh, s, run)) && Listed(After(sh, s, run))
    decreases |run|
  {
    if run != [] {
      var t := Apply(sh, s, run[0]);
      KeepInv(sh, s, run[0]);
      if run[0].Caller? {
        KeepListed(s, run[0].i, run[0].move);
      } else {
        assert forall j :: 0 <= j < |t.pcs| && ListedPc(s, s.pcs[j]) ==> ListedPc(t, t.pcs[j]);
      }
      ListedRun(sh, t, run[1..]);
    }
  }

  ghost predicate OneLoaderPerKeyIn(s: State)
    requires Handles(s)
  {
    forall i, j :: 0 <= i < |s.pcs| && 0 <= j < |s.pcs| && Runner(s.pcs[i]) && Runner(s.pcs[j]) ==>
                     s.cells[s.pcs[i].c].key == s.cells[s.pcs[j].c].key ==> i == j
  }

  lemma {:induction false} ListedMeansOne(s: State)
    requires Inv(s) && Listed(s)
    ensures OneLoaderPerKeyIn(s)
  {
    forall i, j | 0 <= i < |s.pcs| && 0 <= j < |s.pcs| && Runner(s.pcs[i]) && Runner(s.pcs[j])
      ensures s.cells[s.pcs[i].c].key == s.cells[s.pcs[j].c].key ==> i == j
    {
      assert ListedPc(s, s.pcs[i]) && ListedPc(s, s.pcs[j]);
    }
  }

  /**
   * Whoever is cancelled: as long as no last waiter takes an unresolved attempt off the register while a live caller
   * holds it, at most one loader runs per key.
   */
  lemma {:induction false} OneLoaderUnlessDetached(sh: Shards, s0: State, run: seq<Action>)
    requires Initial(s0) && Possible(sh, s0, run) && NeverDetaches(sh, s0, run)
    ensures Handles(After(sh, s0, run)) && OneLoaderPerKeyIn(After(sh, s0, run))
  {
    StartInv(s0);
    ListedRun(sh, s0, run);
    ListedMeansOne(After(sh, s0, run));
  }

  // ----- Runs without cancellation -----

  predicate CalmPc(s: State, p: Pc)
    requires AtCell(p) ==> p.c < |s.cells|
  {
    !p.Cancelled? && !p.Evicting? && (p.LastOut? ==> s.cells[p.c].result.Some?)
  }

  /** Nobody leaves an attempt that is not resolved. */
  predicate Calm(s: State)
    requires Handles(s)
  {
    forall i :: 0 <= i < |s.pcs| ==> CalmPc(s, s.pcs[i])
  }

  lemma {:induction false} KeepCalm(s: State, i: nat, m: Move)
    requires Inv(s) && Calm(s) && i < |s.pcs| && CanMove(s, s.pcs[i], m) && !m.Cancel?
    requires Handles(Step(s, i, m))
    ensures Calm(Step(s, i, m))
  {
    var t := Step(s, i, m);
    assert CalmPc(s, s.pcs[i]) && Agrees(s, s.pcs[i]);
    CalmMover(s, i, m);
    forall j | 0 <= j < |t.pcs|
      ensures CalmPc(t, t.pcs[j])
    {
      assert CalmPc(s, s.pcs[j]);
    }
  }

  lemma {:induction false} CalmMover(s: State, i: nat, m: Move)
    requires Handles(s) && i < |s.pcs| && CanMove(s, s.pcs[i], m) && !m.Cancel?
    requires Agrees(s, s.pcs[i]) && CalmPc(s, s.pcs[i]) && Handles(Step(s, i, m))
    ensures var t := Step(s, i, m);
            && |t.pcs| == |s.pcs| && t.pcs == s.pcs[i := t.pcs[i]] && CalmPc(t, t.pcs[i]) && |s.cells| <= |t.cells|
            && forall c :: 0 <= c < |s.cells| ==> s.cells[c].result.Some? ==> t.cells[c].result.Some?
  {
    OnlyOneMoves(s, i, m);
    ResultsStay(s, i, m);
    if m.DropGuard? || m.CheckLast? {
      CalmLeave(s, i, m);
    } else {
      CalmOther(s, i, m);
    }
  }

  lemma {:induction false} ResultsStay(s: State, i: nat, m: Move)
    requires CanStep(s, i, m)
    ensures var t := Step(s, i, m);
            && |s.cells| <= |t.cells|
            && forall c :: 0 <= c < |s.cells| ==> s.cells[c].result.Some? ==> t.cells[c].result.Some?
  {
    hide RemoveIf, Finish, Version;
  }

  lemma {:induction false} CalmLeave(s: State, i: nat, m: Move)
    requires Handles(s) && i < |s.pcs| && (m.DropGuard? || m.CheckLast?) && CanMove(s, s.pcs[i], m)
    requires Agrees(s, s.pcs[i]) && CalmPc(s, s.pcs[i]) && Handles(Step(s, i, m)) && i < |Step(s, i, m).pcs|
    ensures CalmPc(Step(s, i, m), Step(s, i, m).pcs[i])
  {
  }

  lemma {:induction false} CalmOther(s: State, i: nat, m: Move)
    requires CanStep(s, i, m) && !m.Cancel? && !m.DropGuard? && !m.CheckLast?
    requires CalmPc(s, s.pcs[i]) && i < |Step(s, i, m).pcs|
    ensures var p := Step(s, i, m).pcs[i]; !p.Cancelled? && !p.Evicting? && !p.LastOut?
  {
    hide RemoveIf, Finish, Version;
  }

  /** Without a cancellation no attempt is ever taken away from a live caller. */
  lemma {:induction false} CalmNeverDetaches(sh: Shards, s: State, run: seq<Action>)
    requires Inv(s) && Calm(s) && Possible(sh, s, run)
    requires forall a :: a in run && a.Caller? ==> !a.move.Cancel?
    ensures NeverDetaches(sh, s, run)
    decreases |run|
  {
    if run != [] {
      var t := Apply(sh, s, run[0]);
      KeepInv(sh, s, run[0]);
      if run[0].Caller? {
        assert CalmPc(s, s.pcs[run[0].i]);
        KeepCalm(s, run[0].i, run[0].move);
      } else {
        assert forall j :: 0 <= j < |t.pcs| && CalmPc(s, s.pcs[j]) ==> CalmPc(t, t.pcs[j]);
      }
      CalmNeverDetaches(sh, t, run[1..]);
    }
  }

  /** If nobody is cancelled, at most one loader runs per key. */
  lemma {:induction false} OneLoaderPerKey(sh: Shards, s0: State, run: seq<Action>)
    requires Initial(s0) && Possible(sh, s0, run)
    requires forall a :: a in run && a.Caller? ==> !a.move.Cancel?
    ensures Handles(After(sh, s0, run)) && OneLoaderPerKeyIn(After(sh, s0, run))
  {
    StartInv(s0);
    CalmNeverDetaches(sh, s0, run);
    OneLoaderUnlessDetached(sh, s0, run);
  }

  // ----- A finished attempt is never joined again -----

  predicate OffRegister(s: State, c: nat) {
    c < |s.cells| && forall k :: k in s.inFlight ==> s.inFlight[k] != c
  }

  predicate Holds(p: Pc, c: nat) {
    AtCell(p) && p.c == c
  }

  lemma {:induction false} StaysOff(sh: Shards, s: State, a: Action, c: nat)
    requires Handles(s) && Enabled(sh, s, a) && OffRegister(s, c)
    ensures OffRegister(Apply(sh, s, a), c)
  {
    if a.Caller? {
      if a.move.FindOrCreate? || a.move.Unlist? || a.move.Evict? {
        hide Finish, Version;
      } else {
        RegisterStays(s, a.i, a.move);
      }
    }
  }

  /** Apart from finding or creating its attempt, a caller keeps the attempt it has. */
  lemma {:induction false} KeepsItsCell(s: State, i: nat, m: Move)
    requires CanStep(s, i, m) && !m.FindOrCreate?
    ensures var t := Step(s, i, m);
            i < |t.pcs| && (AtCell(t.pcs[i]) ==> AtCell(s.pcs[i]) && s.pcs[i].c == t.pcs[i].c)
  {
    hide RemoveIf, Version;
  }

  lemma {:induction false} StaysAway(sh: Shards, s: State, a: Action, c: nat, i: nat)
    requires Handles(s) && Enabled(sh, s, a) && OffRegister(s, c) && i < |s.pcs| && !Holds(s.pcs[i], c)
    ensures var t := Apply(sh, s, a); |t.pcs| == |s.pcs| && !Holds(t.pcs[i], c)
  {
    if a.Caller? {
      OnlyOneMoves(s, a.i, a.move);
      if !a.move.FindOrCreate? {
        KeepsItsCell(s, a.i, a.move);
      }
    }
  }

  /** A caller without the attempt never gets hold of it once it is off the register. */
  lemma {:induction false} NeverRejoined(sh: Shards, s: State, run: seq<Action>, c: nat, i: nat)
    requires Inv(s) && Possible(sh, s, run) && OffRegister(s, c) && i < |s.pcs| && !Holds(s.pcs[i], c)
    ensures var t := After(sh, s, run); OffRegister(t, c) && i < |t.pcs| && !Holds(t.pcs[i], c)
    decreases |run|
  {
    if run != [] {
      StaysOff(sh, s, run[0], c);
      StaysAway(sh, s, run[0], c, i);
      KeepInv(sh, s, run[0]);
      NeverRejoined(sh, Apply(sh, s, run[0]), run[1..], c, i);
    }
  }

  predicate PastRemoval(p: Pc) {
    p.Unlisted? || p.Returned? || (p.LastOut? && p.ret.Some?) || (p.Evicting? && p.ret.Some?)
  }

  /** The attempt of a caller past its removal is off the register. */
  predicate Removed(s: State) {
    forall i :: 0 <= i < |s.pcs| && PastRemoval(s.pcs[i]) ==> OffRegister(s, s.pcs[i].c)
  }

  lemma {:induction false} KeepRemoved(sh: Shards, s: State, a: Action)
    requires Handles(s) && Removed(s) && Enabled(sh, s, a)
    ensures Removed(Apply(sh, s, a))
  {
    var t := Apply(sh, s, a);
    forall j | 0 <= j < |t.pcs| && PastRemoval(t.pcs[j])
      ensures OffRegister(t, t.pcs[j].c)
    {
      if a.Caller? && a.i == j && a.move.Unlist? {
        UnlistRemoves(s, j);
      } else {
        AlreadyPast(sh, s, a, j);
        StaysOff(sh, s, a, t.pcs[j].c);
      }
    }
  }

  lemma {:induction false} UnlistRemoves(s: State, i: nat)
    requires Handles(s) && i < |s.pcs| && s.pcs[i].Resolved?
    ensures OffRegister(UnlistStep(s, i), s.pcs[i].c)
  {
  }

  lemma {:induction false} AlreadyPast(sh: Shards, s: State, a: Action, j: nat)
    requires Handles(s) && Enabled(sh, s, a) && j < |Apply(sh, s, a).pcs| && PastRemoval(Apply(sh, s, a).pcs[j])
    requires !(a.Caller? && a.i == j && a.move.Unlist?)
    ensures j < |s.pcs| && PastRemoval(s.pcs[j]) && s.pcs[j].c == Apply(sh, s, a).pcs[j].c
  {
    if a.Caller? {
      OnlyOneMoves(s, a.i, a.move);
      if a.i == j {
        PastBefore(s, j, a.move);
      }
    }
  }

  lemma {:induction false} PastBefore(s: State, i: nat, m: Move)
    requires CanStep(s, i, m) && !m.Unlist?
    requires i < |Step(s, i, m).pcs| && PastRemoval(Step(s, i, m).pcs[i])
    ensures PastRemoval(s.pcs[i]) && s.pcs[i].c == Step(s, i, m).pcs[i].c
  {
    if m.DropGuard? || m.CheckLast? || m.Evict? {
      hide RemoveIf, Version;
    } else {
      NotPast(s, i, m);
    }
  }

  lemma {:induction false} NotPast(s: State, i: nat, m: Move)
    requires CanStep(s, i, m) && !m.Unlist? && !m.DropGuard? && !m.CheckLast? && !m.Evict? && i < |Step(s, i, m).pcs|
    ensures !PastRemoval(Step(s, i, m).pcs[i])
  {
    hide RemoveIf, Version, Finish;
  }

  lemma {:induction false} RunRemoved(sh: Shards, s: State, run: seq<Action>)
    requires Inv(s) && Removed(s) && Possible(sh, s, run)
    ensures Inv(After(sh, s, run)) && Removed(After(sh, s, run))
    decreases |run|
  {
    if run != [] {
      KeepInv(sh, s, run[0]);
      KeepRemoved(sh, s, run[0]);
      RunRemoved(sh, Apply(sh, s, run[0]), run[1..]);
    }
  }

  /**
   * Once some caller has come back from an attempt, with a value or with an error, no call that starts later
   * ever holds that attempt: a failure is retried, not replayed.
   */
  lemma {:induction false} NoReplay(sh: Shards, s0: State, before: seq<Action>, later: seq<Action>, j: nat, i: nat)
    requires Initial(s0) && Possible(sh, s0, before) && Possible(sh, After(sh, s0, before), later)
    requires var s := After(sh, s0, before);
             && j < |s.pcs| && s.pcs[j].Returned? && i < |s.pcs| && s.pcs[i].Start?
    ensures var s, t := After(sh, s0, before), After(sh, After(sh, s0, before), later);
            i < |t.pcs| && !Holds(t.pcs[i], s.pcs[j].c)
  {
    StartInv(s0);
    RunRemoved(sh, s0, before);
    var s := After(sh, s0, before);
    NeverRejoined(sh, s, later, s.pcs[j].c, i);
  }

  // ----- Nobody waits for nothing -----

  ghost predicate RunnerAt(s: State, c: nat) {
    exists i :: 0 <= i < |s.pcs| && RunsCell(s.pcs[i], c)
  }

  predicate RunsCell(p: Pc, c: nat) {
    Runner(p) && p.c == c
  }

  /** A permit that is taken is in the hands of a caller. */
  ghost predicate Manned(s: State) {
    forall c :: 0 <= c < |s.cells| && s.cells[c].busy ==> RunnerAt(s, c)
  }

  lemma {:induction false} KeepManned(s: State, i: nat, m: Move)
    requires Handles(s) && Manned(s) && i < |s.pcs| && CanMove(s, s.pcs[i], m)
    ensures Manned(Step(s, i, m))
  {
    var t := Step(s, i, m);
    OnlyOneMoves(s, i, m);
    forall c | 0 <= c < |t.cells| && t.cells[c].busy
      ensures RunnerAt(t, c)
    {
      StaysManned(s, i, m, c);
      if RunsCell(t.pcs[i], c) {
      } else {
        var j :| 0 <= j < |s.pcs| && RunsCell(s.pcs[j], c);
        assert RunsCell(t.pcs[j], c);
      }
    }
  }

  /** A busy cell is run by the moving caller, or was busy before and is not run by the moving caller. */
  lemma {:induction false} StaysManned(s: State, i: nat, m: Move, c: nat)
    requires Handles(s) && i < |s.pcs| && CanMove(s, s.pcs[i], m)
    requires c < |Step(s, i, m).cells| && Step(s, i, m).cells[c].busy && i < |Step(s, i, m).pcs|
    ensures RunsCell(Step(s, i, m).pcs[i], c) || (c < |s.cells| && s.cells[c].busy && !RunsCell(s.pcs[i], c))
  {
  }

  lemma {:induction false} RunManned(sh: Shards, s: State, run: seq<Action>)
    requires Inv(s) && Manned(s) && Possible(sh, s, run)
    ensures Inv(After(sh, s, run)) && Manned(After(sh, s, run))
    decreases |run|
  {
    if run != [] {
      var t := Apply(sh, s, run[0]);
      KeepInv(sh, s, run[0]);
      if run[0].Caller? {
        KeepManned(s, run[0].i, run[0].move);
      } else {
        assert forall c :: RunnerAt(s, c) ==> RunnerAt(t, c);
      }
      RunManned(sh, t, run[1..]);
    }
  }

  /** A move that carries a call forward. */
  ghost predicate CanGoOn(s: State, p: Pc)
    requires AtCell(p) ==> p.c < |s.cells|
  {
    exists m: Move :: !m.Cancel? && !m.Begin? && CanMove(s, p, m)
  }

  lemma {:induction false} GoesOn(s: State, p: Pc)
    requires AtCell(p) ==> p.c < |s.cells|
    requires !Free(p) && (p.Joined? ==> !s.cells[p.c].busy || s.cells[p.c].result.Some?)
    ensures CanGoOn(s, p)
  {
    var m := match p
      case Start(_, _) => Look
      case Expired(_, _) => EvictExpired
      case Missed(_, _) => FindOrCreate
      case Cloned(_, _) => Join
      case Joined(c, _) => if s.cells[c].result.Some? then Wake else TakePermit
      case Running(_, _) => Query(None)
      case Fetched(_, _, _) => Store
      case Stored(_, _) => Resolve
      case Resolved(_, _) => Unlist
      case LastOut(_, _) => CheckLast
      case Evicting(_, _) => Evict
      case _ => DropGuard;
    assert CanMove(s, p, m);
  }

  /** A call can always go on, or else waits for a loader of its own attempt that can. */
  lemma {:induction false} NeverStuck(sh: Shards, s0: State, run: seq<Action>, i: nat)
    requires Initial(s0) && Possible(sh, s0, run)
    requires i < |After(sh, s0, run).pcs| && !Free(After(sh, s0, run).pcs[i])
    ensures var s := After(sh, s0, run);
            && Handles(s)
            && (CanGoOn(s, s.pcs[i])
                || (AtCell(s.pcs[i]) && exists j :: 0 <= j < |s.pcs| && RunsCell(s.pcs[j], s.pcs[i].c) && CanGoOn(s, s.pcs[j])))
  {
    StartInv(s0);
    RunManned(sh, s0, run);
    var s := After(sh, s0, run);
    var p := s.pcs[i];
    if p.Joined? && s.cells[p.c].busy && s.cells[p.c].result.None? {
      assert RunnerAt(s, p.c);
      var j :| 0 <= j < |s.pcs| && RunsCell(s.pcs[j], p.c);
      GoesOn(s, s.pcs[j]);
    } else {
      GoesOn(s, p);
    }
  }
}
