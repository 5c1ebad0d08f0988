/**
 * The single-flight cache protocol as a system of interleaved steps: any number of callers of
 * `get_or_populate`, any number of writers, and the passing of time.
 */
module SingleFlight {
  import opened Values

  datatype Key = Key(table: string, query: string)

  /** A loaded value is identified by the version of the table it was read from. */
  datatype Outcome = Loaded(ver: nat) | Failed(text: string)

  /** `ver` is the version read, `putVer` the version current when the entry was stored. */
  datatype Entry = Entry(ver: nat, putVer: nat, putAt: nat, ttl: nat)

  /** One attempt: a once-cell with one permit, and the atomic count of its waiters. */
  datatype Cell = Cell(key: Key, busy: bool, result: Option<Outcome>, waiters: int)

  /** A committed write whose invalidation has swept the shards below `next`. */
  datatype Writer = Writer(table: string, ver: nat, next: nat)

  /**
   * Where a caller is. `Cloned` holds the cell without being counted; `Joined` to `Cancelled` hold the waiter
   * guard; `LastOut` has dropped it and found itself last. Only `Joined`, `Running` and `Fetched` await anything.
   */
  datatype Pc =
    | Idle
    | Start(key: Key, ttl: nat)
    | Expired(key: Key, ttl: nat)
    | Missed(key: Key, ttl: nat)
    | Cloned(c: nat, ttl: nat)
    | Joined(c: nat, ttl: nat)
    | Running(c: nat, ttl: nat)
    | Fetched(c: nat, ttl: nat, out: Outcome)
    | Stored(c: nat, out: Outcome)
    | Resolved(c: nat, out: Outcome)
    | Unlisted(c: nat, out: Outcome)
    | Cancelled(c: nat)
    | LastOut(c: nat, ret: Option<Outcome>)
    | Evicting(c: nat, ret: Option<Outcome>)
    | Returned(c: nat, out: Outcome)
    | Served(entry: Entry, at: nat)

  datatype State = State(
    now: nat,
    vers: map<string, nat>,
    writers: seq<Writer>,
    cache: map<Key, Entry>,
    inFlight: map<Key, nat>,
    cells: seq<Cell>,
    pcs: seq<Pc>)

  /** How the concurrent cache map spreads its keys over the shards that an invalidation visits one by one. */
  datatype Shards = Shards(of: Key -> nat, count: nat)

  /** What a caller can do next. `Cancel` drops its future. */
  datatype Move =
    | Begin(key: Key, ttl: nat)
    | Look
    | EvictExpired
    | FindOrCreate
    | Join
    | TakePermit
    | Query(error: Option<string>)
    | Store
    | Resolve
    | Wake
    | Unlist
    | Cancel
    | DropGuard
    | CheckLast
    | Evict

  datatype Action = Caller(i: nat, move: Move) | Tick | Commit(table: string) | Sweep(w: nat)

  function Version(s: State, t: string): nat {
    if t in s.vers then s.vers[t] else 0
  }

  predicate AtCell(p: Pc) {
    p.Cloned? || p.Joined? || p.Running? || p.Fetched? || p.Stored? || p.Resolved? || p.Unlisted? || p.Cancelled?
    || p.LastOut? || p.Evicting? || p.Returned?
  }

  /** Counted by the cell's waiter count. */
  predicate Guarded(p: Pc) {
    p.Joined? || p.Running? || p.Fetched? || p.Stored? || p.Resolved? || p.Unlisted? || p.Cancelled?
  }

  /** Holding the cell's permit. */
  predicate Runner(p: Pc) {
    p.Running? || p.Fetched? || p.Stored?
  }

  predicate Awaiting(p: Pc) {
    p.Joined? || p.Running? || p.Fetched?
  }

  predicate Free(p: Pc) {
    p.Idle? || p.Returned? || p.Served?
  }

  predicate CanMove(s: State, p: Pc, m: Move)
    requires AtCell(p) ==> p.c < |s.cells|
  {
    match m
    case Begin(_, _) => Free(p)
    case Look => p.Start?
    case EvictExpired => p.Expired?
    case FindOrCreate => p.Missed?
    case Join => p.Cloned?
    case TakePermit => p.Joined? && !s.cells[p.c].busy && s.cells[p.c].result.None?
    case Query(_) => p.Running?
    case Store => p.Fetched?
    case Resolve => p.Stored?
    case Wake => p.Joined? && s.cells[p.c].result.Some?
    case Unlist => p.Resolved?
    case Cancel => Awaiting(p)
    case DropGuard => p.Unlisted? || p.Cancelled?
    case CheckLast => p.LastOut?
    case Evict => p.Evicting?
  }

  predicate CanStep(s: State, i: nat, m: Move) {
    i < |s.pcs| && (AtCell(s.pcs[i]) ==> s.pcs[i].c < |s.cells|) && CanMove(s, s.pcs[i], m)
  }

  predicate Enabled(sh: Shards, s: State, a: Action) {
    match a
    case Caller(i, m) => CanStep(s, i, m)
    case Tick => true
    case Commit(t) => true
    case Sweep(w) => w < |s.writers| && s.writers[w].next < sh.count
  }

  function Goto(s: State, i: nat, p: Pc): State
    requires i < |s.pcs|
  {
    s.(pcs := s.pcs[i := p])
  }

  function SetCell(s: State, c: nat, cell: Cell): State
    requires c < |s.cells|
  {
    s.(cells := s.cells[c := cell])
  }

  /** `remove_if` with pointer identity. */
  function RemoveIf(m: map<Key, nat>, k: Key, c: nat): map<Key, nat> {
    if k in m && m[k] == c then m - {k} else m
  }

  function Finish(c: nat, ret: Option<Outcome>): Pc {
    if ret.Some? then Returned(c, ret.value) else Idle
  }

  function LookStep(s: State, i: nat): State
    requires i < |s.pcs| && s.pcs[i].Start?
  {
    var p := s.pcs[i];
    if p.key !in s.cache then Goto(s, i, Missed(p.key, p.ttl))
    else
      var e := s.cache[p.key];
      if e.putAt + e.ttl <= s.now then Goto(s, i, Expired(p.key, p.ttl))
      else Goto(s, i, Served(e, s.now))
  }

  /** The expired entry is removed by key, in a step of its own. */
  function ExpireStep(s: State, i: nat): State
    requires i < |s.pcs| && s.pcs[i].Expired?
  {
    var p := s.pcs[i];
    Goto(s, i, Missed(p.key, p.ttl)).(cache := s.cache - {p.key})
  }

  function FindStep(s: State, i: nat): State
    requires i < |s.pcs| && s.pcs[i].Missed?
  {
    var p := s.pcs[i];
    if p.key in s.inFlight then Goto(s, i, Cloned(s.inFlight[p.key], p.ttl))
    else
      Goto(s, i, Cloned(|s.cells|, p.ttl)).(
        cells := s.cells + [Cell(p.key, false, None, 0)],
        inFlight := s.inFlight[p.key := |s.cells|])
  }

  function JoinStep(s: State, i: nat): State
    requires i < |s.pcs| && s.pcs[i].Cloned? && s.pcs[i].c < |s.cells|
  {
    var p := s.pcs[i];
    var cell := s.cells[p.c];
    SetCell(Goto(s, i, Joined(p.c, p.ttl)), p.c, cell.(waiters := cell.waiters + 1))
  }

  function TakeStep(s: State, i: nat): State
    requires i < |s.pcs| && s.pcs[i].Joined? && s.pcs[i].c < |s.cells|
  {
    var p := s.pcs[i];
    SetCell(Goto(s, i, Running(p.c, p.ttl)), p.c, s.cells[p.c].(busy := true))
  }

  function QueryStep(s: State, i: nat, error: Option<string>): State
    requires i < |s.pcs| && s.pcs[i].Running? && s.pcs[i].c < |s.cells|
  {
    var p := s.pcs[i];
    var out := if error.Some? then Failed(error.value) else Loaded(Version(s, s.cells[p.c].key.table));
    Goto(s, i, Fetched(p.c, p.ttl, out))
  }

  function StoreStep(s: State, i: nat): State
    requires i < |s.pcs| && s.pcs[i].Fetched? && s.pcs[i].c < |s.cells|
  {
    var p := s.pcs[i];
    var moved := Goto(s, i, Stored(p.c, p.out));
    if p.out.Failed? then moved
    else
      var key := s.cells[p.c].key;
      moved.(cache := s.cache[key := Entry(p.out.ver, Version(s, key.table), s.now, p.ttl)])
  }

  function ResolveStep(s: State, i: nat): State
    requires i < |s.pcs| && s.pcs[i].Stored? && s.pcs[i].c < |s.cells|
  {
    var p := s.pcs[i];
    SetCell(Goto(s, i, Resolved(p.c, p.out)), p.c, s.cells[p.c].(busy := false, result := Some(p.out)))
  }

  function WakeStep(s: State, i: nat): State
    requires i < |s.pcs| && s.pcs[i].Joined? && s.pcs[i].c < |s.cells| && s.cells[s.pcs[i].c].result.Some?
  {
    var p := s.pcs[i];
    Goto(s, i, Resolved(p.c, s.cells[p.c].result.value))
  }

  function UnlistStep(s: State, i: nat): State
    requires i < |s.pcs| && s.pcs[i].Resolved? && s.pcs[i].c < |s.cells|
  {
    var p := s.pcs[i];
    Goto(s, i, Unlisted(p.c, p.out)).(inFlight := RemoveIf(s.inFlight, s.cells[p.c].key, p.c))
  }

  /** A dropped future gives its permit back before its guard is dropped. */
  function CancelStep(s: State, i: nat): State
    requires i < |s.pcs| && Awaiting(s.pcs[i]) && s.pcs[i].c < |s.cells|
  {
    var p := s.pcs[i];
    var moved := Goto(s, i, Cancelled(p.c));
    if p.Joined? then moved else SetCell(moved, p.c, s.cells[p.c].(busy := false))
  }

  function DropStep(s: State, i: nat): State
    requires i < |s.pcs| && (s.pcs[i].Unlisted? || s.pcs[i].Cancelled?) && s.pcs[i].c < |s.cells|
  {
    var p := s.pcs[i];
    var cell := s.cells[p.c];
    var ret := if p.Unlisted? then Some(p.out) else None;
    SetCell(Goto(s, i, if cell.waiters == 1 then LastOut(p.c, ret) else Finish(p.c, ret)),
            p.c, cell.(waiters := cell.waiters - 1))
  }

  function CheckStep(s: State, i: nat): State
    requires i < |s.pcs| && s.pcs[i].LastOut? && s.pcs[i].c < |s.cells|
  {
    var p := s.pcs[i];
    Goto(s, i, if s.cells[p.c].result.Some? then Finish(p.c, p.ret) else Evicting(p.c, p.ret))
  }

  function EvictStep(s: State, i: nat): State
    requires i < |s.pcs| && s.pcs[i].Evicting? && s.pcs[i].c < |s.cells|
  {
    var p := s.pcs[i];
    Goto(s, i, Finish(p.c, p.ret)).(inFlight := RemoveIf(s.inFlight, s.cells[p.c].key, p.c))
  }

  function CommitStep(s: State, t: string): State {
    var v := Version(s, t) + 1;
    s.(vers := s.vers[t := v], writers := s.writers + [Writer(t, v, 0)])
  }

  function SweepStep(sh: Shards, s: State, w: nat): State
    requires w < |s.writers|
  {
    var wr := s.writers[w];
    s.(writers := s.writers[w := wr.(next := wr.next + 1)],
       cache := map k | k in s.cache && !(k.table == wr.table && sh.of(k) == wr.next) :: s.cache[k])
  }

  function Step(s: State, i: nat, m: Move): State
    requires CanStep(s, i, m)
  {
    match m
    case Begin(key, ttl) => Goto(s, i, Start(key, ttl))
    case Look => LookStep(s, i)
    case EvictExpired => ExpireStep(s, i)
    case FindOrCreate => FindStep(s, i)
    case Join => JoinStep(s, i)
    case TakePermit => TakeStep(s, i)
    case Query(error) => QueryStep(s, i, error)
    case Store => StoreStep(s, i)
    case Resolve => ResolveStep(s, i)
    case Wake => WakeStep(s, i)
    case Unlist => UnlistStep(s, i)
    case Cancel => CancelStep(s, i)
    case DropGuard => DropStep(s, i)
    case CheckLast => CheckStep(s, i)
    case Evict => EvictStep(s, i)
  }

  function Apply(sh: Shards, s: State, a: Action): State
    requires Enabled(sh, s, a)
  {
    match a
    case Caller(i, m) => Step(s, i, m)
    case Tick => s.(now := s.now + 1)
    case Commit(t) => CommitStep(s, t)
    case Sweep(w) => SweepStep(sh, s, w)
  }

  // ----- Runs -----

  predicate Initial(s: State) {
    s.writers == [] && s.cache == map[] && s.inFlight == map[] && s.cells == []
    && forall i :: 0 <= i < |s.pcs| ==> s.pcs[i].Idle?
  }

  /** The actions can be taken one after the other. */
  predicate Possible(sh: Shards, s: State, run: seq<Action>)
    decreases |run|
  {
    run != [] ==> Enabled(sh, s, run[0]) && Possible(sh, Apply(sh, s, run[0]), run[1..])
  }

  function After(sh: Shards, s: State, run: seq<Action>): State
    requires Possible(sh, s, run)
    decreases |run|
  {
    if run == [] then s else After(sh, Apply(sh, s, run[0]), run[1..])
  }
}
