/**
 The per-tenant model registry under asyncio: any number of `list_models` and `invalidate`
 calls for any number of tenants, interleaved with committed writes, expiring time, failing
 reads and cancelled tasks. Code between two awaits is one event; taking a lock and the
 database read are events of their own.
 */
module RegistryProtocol {
  import opened Prelude
  import opened RegistryMerge

  type Tenant = nat
  type CallId = nat
  type LockId = nat

  datatype Config = Config(yaml: seq<ModelEntry>, ttl: int)

  datatype CacheEntry = CacheEntry(expiresAt: int, models: seq<ModelEntry>)

  datatype Kind = List | Invalidate

  /** Where a call stands. `Fetched` holds the rows the database answered with. */
  datatype Phase =
    | Arrived
    | AwaitGuard
    | InGuard
    | AwaitLock(lock: LockId)
    | InSection(lock: LockId)
    | Reading(lock: LockId)
    | Fetched(lock: LockId, rows: seq<Row>)
    | Returned(models: seq<ModelEntry>)
    | Evicted
    | Failed

  datatype Call = Call(kind: Kind, tenant: Tenant, phase: Phase)

  /** `history[t]` lists the row sets committed for `t`, oldest first, after the empty one. */
  datatype State = State(now: int,
                         history: map<Tenant, seq<seq<Row>>>,
                         cache: map<Tenant, CacheEntry>,
                         tenantLocks: map<Tenant, LockId>,
                         nextLock: LockId,
                         guard: Option<CallId>,
                         owner: map<LockId, CallId>,
                         calls: map<CallId, Call>)

  datatype Event =
    | Tick(elapsed: nat)
    | Write(tenant: Tenant, rows: seq<Row>)
    | Arrive(call: CallId, kind: Kind, tenant: Tenant)
    | Look(call: CallId)
    | TakeGuard(call: CallId)
    | ResolveLock(call: CallId)
    | TakeLock(call: CallId)
    | Recheck(call: CallId)
    | Query(call: CallId)
    | Fill(call: CallId)
    | Pop(call: CallId)
    | Abort(call: CallId)

  const START := State(0, map[], map[], map[], 0, None, map[], map[])

  // ---------------------------------------------------------------------------
  // What each atomic segment does to the shared dicts
  // ---------------------------------------------------------------------------

  predicate Fresh(cache: map<Tenant, CacheEntry>, t: Tenant, now: int) {
    t in cache && cache[t].expiresAt > now
  }

  function Store(cache: map<Tenant, CacheEntry>, t: Tenant, models: seq<ModelEntry>, now: int,
                 ttl: int): map<Tenant, CacheEntry>
  {
    cache[t := CacheEntry(now + ttl, models)]
  }

  function LockTable(locks: map<Tenant, LockId>, t: Tenant, next: LockId): map<Tenant, LockId> {
    if t in locks then locks else locks[t := next]
  }

  /** Every row set the tenant ever had; the last one is the committed state. */
  function Snapshots(s: State, t: Tenant): seq<seq<Row>> {
    [[]] + (if t in s.history then s.history[t] else [])
  }

  function Current(s: State, t: Tenant): nat {
    |Snapshots(s, t)| - 1
  }

  // ---------------------------------------------------------------------------
  // Events
  // ---------------------------------------------------------------------------

  predicate InCriticalSection(p: Phase) {
    p.InSection? || p.Reading? || p.Fetched?
  }

  predicate Over(p: Phase) {
    p.Returned? || p.Evicted? || p.Failed?
  }

  predicate Is(s: State, c: CallId, kind: Kind) {
    c in s.calls && s.calls[c].kind == kind
  }

  predicate Enabled(s: State, e: Event) {
    match e
    case Tick(_) => true
    case Write(_, _) => true
    case Arrive(c, _, _) => c !in s.calls
    case Look(c) => c in s.calls && s.calls[c].phase.Arrived?
    case TakeGuard(c) => c in s.calls && s.calls[c].phase.AwaitGuard? && s.guard.None?
    case ResolveLock(c) => c in s.calls && s.calls[c].phase.InGuard?
    case TakeLock(c) => c in s.calls && s.calls[c].phase.AwaitLock? && s.calls[c].phase.lock !in s.owner
    case Recheck(c) => Is(s, c, List) && s.calls[c].phase.InSection?
    case Query(c) => Is(s, c, List) && s.calls[c].phase.Reading?
    case Fill(c) => Is(s, c, List) && s.calls[c].phase.Fetched?
    case Pop(c) => Is(s, c, Invalidate) && s.calls[c].phase.InSection?
    case Abort(c) => c in s.calls && !Over(s.calls[c].phase)
  }

  function Goto(s: State, c: CallId, p: Phase): State
    requires c in s.calls
  {
    s.(calls := s.calls[c := s.calls[c].(phase := p)])
  }

  /** Leaving `async with lock`, whether by return or by exception, frees the lock. */
  function Release(s: State, c: CallId): State
    requires c in s.calls && InCriticalSection(s.calls[c].phase)
  {
    s.(owner := s.owner - {s.calls[c].phase.lock})
  }

  function Apply(cfg: Config, s: State, e: Event): State
    requires Enabled(s, e)
  {
    match e
    case Tick(elapsed) => s.(now := s.now + elapsed)
    case Write(t, rows) =>
      s.(history := s.history[t := (if t in s.history then s.history[t] else []) + [rows]])
    case Arrive(c, kind, t) => s.(calls := s.calls[c := Call(kind, t, Arrived)])
    case Look(c) =>
      var call := s.calls[c];
      if call.kind.List? && Fresh(s.cache, call.tenant, s.now) then Goto(s, c, Returned(s.cache[call.tenant].models))
      else Goto(s, c, AwaitGuard)
    case TakeGuard(c) => Goto(s.(guard := Some(c)), c, InGuard)
    case ResolveLock(c) =>
      var t := s.calls[c].tenant;
      var locks := LockTable(s.tenantLocks, t, s.nextLock);
      var next := if t in s.tenantLocks then s.nextLock else s.nextLock + 1;
      Goto(s.(guard := None, tenantLocks := locks, nextLock := next),
           c, AwaitLock(locks[t]))
    case TakeLock(c) =>
      var l := s.calls[c].phase.lock;
      Goto(s.(owner := s.owner[l := c]), c, InSection(l))
    case Recheck(c) =>
      var call := s.calls[c];
      if Fresh(s.cache, call.tenant, s.now) then Goto(Release(s, c), c, Returned(s.cache[call.tenant].models))
      else Goto(s, c, Reading(call.phase.lock))
    case Query(c) =>
      var call := s.calls[c];
      Goto(s, c, Fetched(call.phase.lock, Snapshots(s, call.tenant)[Current(s, call.tenant)]))
    case Fill(c) =>
      var call := s.calls[c];
      var models := Merge(cfg.yaml, call.phase.rows);
      Goto(Release(s, c).(cache := Store(s.cache, call.tenant, models, s.now, cfg.ttl)), c, Returned(models))
    case Pop(c) =>
      Goto(Release(s, c).(cache := s.cache - {s.calls[c].tenant}), c, Evicted)
    case Abort(c) =>
      var p := s.calls[c].phase;
      if InCriticalSection(p) then Goto(Release(s, c), c, Failed)
      else if p.InGuard? then Goto(s.(guard := None), c, Failed)
      else Goto(s, c, Failed)
  }

  // ---------------------------------------------------------------------------
  // Runs
  // ---------------------------------------------------------------------------

  /** A run: its states and the events between them. */
  datatype Run = Run(states: seq<State>, events: seq<Event>)

  ghost predicate IsRun(cfg: Config, r: Run) {
    && |r.states| == |r.events| + 1
    && r.states[0] == START
    && forall i :: 0 <= i < |r.events| ==> Steps(cfg, r, i)
  }

  ghost predicate Steps(cfg: Config, r: Run, i: nat)
    requires |r.states| == |r.events| + 1 && i < |r.events|
  {
    Enabled(r.states[i], r.events[i]) && r.states[i + 1] == Apply(cfg, r.states[i], r.events[i])
  }

  // ---------------------------------------------------------------------------
  // What an event leaves alone
  // ---------------------------------------------------------------------------

  predicate Moves(e: Event, c: CallId) {
    !e.Tick? && !e.Write? && e.call == c
  }

  /** Only the call an event names changes its phase. */
  lemma OthersStay(cfg: Config, s: State, e: Event, c: CallId)
    requires Enabled(s, e) && c in Apply(cfg, s, e).calls && !Moves(e, c)
    ensures c in s.calls && Apply(cfg, s, e).calls[c] == s.calls[c]
  {
  }

  /** And no call ever changes its tenant. */
  lemma TenantStays(cfg: Config, s: State, e: Event, c: CallId)
    requires Enabled(s, e) && c in s.calls
    ensures c in Apply(cfg, s, e).calls && Apply(cfg, s, e).calls[c].tenant == s.calls[c].tenant
  {
    if Moves(e, c) {
      assert c in Apply(cfg, s, e).calls;
    }
  }

  // ---------------------------------------------------------------------------
  // Invariant: one lock per tenant, and one call inside it
  // ---------------------------------------------------------------------------

  ghost predicate LocksDistinct(s: State) {
    && (forall t :: t in s.tenantLocks ==> s.tenantLocks[t] < s.nextLock)
    && (forall t, u :: t in s.tenantLocks && u in s.tenantLocks && s.tenantLocks[t] == s.tenantLocks[u] ==> t == u)
  }

  ghost predicate PhaseLockOk(s: State, c: CallId)
    requires c in s.calls
  {
    var call := s.calls[c];
    && (call.phase.InGuard? ==> s.guard == Some(c))
    && (call.phase.AwaitLock? || InCriticalSection(call.phase) ==>
          call.tenant in s.tenantLocks && s.tenantLocks[call.tenant] == call.phase.lock)
    && (InCriticalSection(call.phase) ==> call.phase.lock in s.owner && s.owner[call.phase.lock] == c)
  }

  ghost predicate Locked(s: State) {
    LocksDistinct(s) && forall c :: c in s.calls ==> PhaseLockOk(s, c)
  }

  lemma LocksDistinctStep(cfg: Config, s: State, e: Event)
    requires LocksDistinct(s) && Enabled(s, e)
    ensures LocksDistinct(Apply(cfg, s, e))
    ensures forall t :: t in s.tenantLocks ==>
              t in Apply(cfg, s, e).tenantLocks && Apply(cfg, s, e).tenantLocks[t] == s.tenantLocks[t]
  {
    if !e.ResolveLock? {
      assert Apply(cfg, s, e).tenantLocks == s.tenantLocks;
    }
  }

  /** Events that touch neither guard nor owners. */
  predicate Quiet(e: Event) {
    e.Tick? || e.Write? || e.Arrive? || e.Look? || e.Query?
  }

  predicate Guarding(e: Event) {
    e.TakeGuard? || e.ResolveLock?
  }

  /** The guard, and every lock of a call other than the one that moves, stay as they were. */
  lemma OthersKeepTheirLocks(cfg: Config, s: State, e: Event, c: CallId)
    requires Locked(s) && Enabled(s, e) && c in s.calls
    requires Apply(cfg, s, e).calls[c] == s.calls[c]
    ensures PhaseLockOk(Apply(cfg, s, e), c)
  {
    assert PhaseLockOk(s, c);
    if Guarding(e) {
      OthersKeepGuard(cfg, s, e, c);
    } else if !Quiet(e) {
      OthersKeepOwner(cfg, s, e, c);
    }
  }

  lemma OthersKeepGuard(cfg: Config, s: State, e: Event, c: CallId)
    requires Locked(s) && Enabled(s, e) && c in s.calls && PhaseLockOk(s, c) && Guarding(e)
    requires Apply(cfg, s, e).calls[c] == s.calls[c]
    ensures PhaseLockOk(Apply(cfg, s, e), c)
  {
    LocksDistinctStep(cfg, s, e);
    assert PhaseLockOk(s, e.call);
  }

  lemma OthersKeepOwner(cfg: Config, s: State, e: Event, c: CallId)
    requires Locked(s) && Enabled(s, e) && c in s.calls && PhaseLockOk(s, c) && !Guarding(e) && !Quiet(e)
    requires Apply(cfg, s, e).calls[c] == s.calls[c]
    ensures PhaseLockOk(Apply(cfg, s, e), c)
  {
    assert PhaseLockOk(s, e.call);
    if e.TakeLock? {
      OthersKeepTaken(cfg, s, e.call, c);
    } else if e.Abort? {
      OthersKeepAborted(cfg, s, e.call, c);
    } else {
      OthersKeepReleased(cfg, s, e, c);
    }
  }

  lemma OthersKeepTaken(cfg: Config, s: State, d: CallId, c: CallId)
    requires Enabled(s, TakeLock(d)) && c in s.calls && PhaseLockOk(s, c) &&
             Apply(cfg, s, TakeLock(d)).calls[c] == s.calls[c]
    ensures PhaseLockOk(Apply(cfg, s, TakeLock(d)), c)
  {
  }

  lemma OthersKeepAborted(cfg: Config, s: State, d: CallId, c: CallId)
    requires Enabled(s, Abort(d)) && c in s.calls && PhaseLockOk(s, c) && PhaseLockOk(s, d)
    requires Apply(cfg, s, Abort(d)).calls[c] == s.calls[c]
    ensures PhaseLockOk(Apply(cfg, s, Abort(d)), c)
  {
    assert c != d;
  }

  lemma OthersKeepReleased(cfg: Config, s: State, e: Event, c: CallId)
    requires Enabled(s, e) && (e.Recheck? || e.Fill? || e.Pop?)
    requires c in s.calls && PhaseLockOk(s, c) && PhaseLockOk(s, e.call) && Apply(cfg, s, e).calls[c] == s.calls[c]
    ensures PhaseLockOk(Apply(cfg, s, e), c)
  {
    assert Apply(cfg, s, e).tenantLocks == s.tenantLocks && Apply(cfg, s, e).guard == s.guard;
  }

  lemma MoverIsLocked(cfg: Config, s: State, e: Event, c: CallId)
    requires Locked(s) && Enabled(s, e) && c in Apply(cfg, s, e).calls
    requires c !in s.calls || Apply(cfg, s, e).calls[c] != s.calls[c]
    ensures PhaseLockOk(Apply(cfg, s, e), c)
  {
    if c !in s.calls {
    } else if Guarding(e) {
      assert PhaseLockOk(s, c);
      MoverTakesGuard(cfg, s, e, c);
    } else if Quiet(e) {
      assert PhaseLockOk(s, c);
      MoverQuiet(cfg, s, e, c);
    } else {
      assert PhaseLockOk(s, c);
      MoverInSection(cfg, s, e, c);
    }
  }

  lemma MoverQuiet(cfg: Config, s: State, e: Event, c: CallId)
    requires Enabled(s, e) && c in s.calls && PhaseLockOk(s, c) && Quiet(e) && Apply(cfg, s, e).calls[c] != s.calls[c]
    ensures PhaseLockOk(Apply(cfg, s, e), c)
  {
  }

  lemma MoverTakesGuard(cfg: Config, s: State, e: Event, c: CallId)
    requires Enabled(s, e) && c in s.calls && PhaseLockOk(s, c) && Guarding(e) &&
             Apply(cfg, s, e).calls[c] != s.calls[c]
    ensures PhaseLockOk(Apply(cfg, s, e), c)
  {
  }

  lemma MoverInSection(cfg: Config, s: State, e: Event, c: CallId)
    requires Enabled(s, e) && c in s.calls && PhaseLockOk(s, c) && !Guarding(e) && !Quiet(e)
    requires Apply(cfg, s, e).calls[c] != s.calls[c]
    ensures PhaseLockOk(Apply(cfg, s, e), c)
  {
    if e.TakeLock? {
      MoverEnters(cfg, s, c);
    } else if !e.Recheck? {
      assert Over(Apply(cfg, s, e).calls[c].phase);
    } else {
      MoverRechecks(cfg, s, c);
    }
  }

  lemma MoverEnters(cfg: Config, s: State, c: CallId)
    requires Enabled(s, TakeLock(c)) && PhaseLockOk(s, c)
    ensures PhaseLockOk(Apply(cfg, s, TakeLock(c)), c)
  {
  }

  lemma MoverRechecks(cfg: Config, s: State, c: CallId)
    requires Enabled(s, Recheck(c)) && PhaseLockOk(s, c)
    ensures PhaseLockOk(Apply(cfg, s, Recheck(c)), c)
  {
  }

  lemma LockedStep(cfg: Config, s: State, e: Event)
    requires Locked(s) && Enabled(s, e)
    ensures Locked(Apply(cfg, s, e))
  {
    var s' := Apply(cfg, s, e);
    LocksDistinctStep(cfg, s, e);
    forall c | c in s'.calls ensures PhaseLockOk(s', c) {
      if c in s.calls && s'.calls[c] == s.calls[c] {
        OthersKeepTheirLocks(cfg, s, e, c);
      } else {
        MoverIsLocked(cfg, s, e, c);
      }
    }
  }

  /** No two calls of one tenant are ever inside its critical section together. */
  lemma MutualExclusion(s: State, c: CallId, d: CallId)
    requires Locked(s) && c in s.calls && d in s.calls
    requires InCriticalSection(s.calls[c].phase) && InCriticalSection(s.calls[d].phase)
    requires s.calls[c].tenant == s.calls[d].tenant
    ensures c == d
  {
    assert PhaseLockOk(s, c) && PhaseLockOk(s, d);
  }

  lemma {:induction false} LockedAlways(cfg: Config, r: Run, i: nat)
    requires IsRun(cfg, r) && i < |r.states|
    ensures Locked(r.states[i])
  {
    if i > 0 {
      LockedAlways(cfg, r, i - 1);
      assert Steps(cfg, r, i - 1);
      LockedStep(cfg, r.states[i - 1], r.events[i - 1]);
    }
  }

  // ---------------------------------------------------------------------------
  // An invalidation is a barrier
  // ---------------------------------------------------------------------------

  /** `models` is the merge of a row set of `t` committed as version `floor` or later. */
  ghost predicate MergedSince(cfg: Config, s: State, t: Tenant, floor: nat, models: seq<ModelEntry>) {
    exists v :: floor <= v < |Snapshots(s, t)| && models == Merge(cfg.yaml, Snapshots(s, t)[v])
  }

  ghost predicate ReadSince(s: State, t: Tenant, floor: nat, rows: seq<Row>) {
    exists v :: floor <= v < |Snapshots(s, t)| && rows == Snapshots(s, t)[v]
  }

  /** Nothing about `t` older than `floor` is cached, on its way, or returned to a call outside `before`. */
  ghost predicate NoOlder(cfg: Config, s: State, t: Tenant, floor: nat, before: set<CallId>) {
    && floor < |Snapshots(s, t)|
    && (t in s.cache ==> MergedSince(cfg, s, t, floor, s.cache[t].models))
    && (forall c :: c in s.calls && s.calls[c].tenant == t && s.calls[c].phase.Fetched? ==>
          ReadSince(s, t, floor, s.calls[c].phase.rows))
    && (forall c :: c in s.calls && c !in before && s.calls[c].tenant == t && s.calls[c].phase.Returned? ==>
          MergedSince(cfg, s, t, floor, s.calls[c].phase.models))
  }

  lemma SnapshotsGrow(cfg: Config, s: State, e: Event, t: Tenant)
    requires Enabled(s, e)
    ensures Snapshots(s, t) <= Snapshots(Apply(cfg, s, e), t)
  {
  }

  lemma MergedSinceGrows(cfg: Config, s: State, s': State, t: Tenant, floor: nat, models: seq<ModelEntry>)
    requires Snapshots(s, t) <= Snapshots(s', t)
    requires MergedSince(cfg, s, t, floor, models)
    ensures MergedSince(cfg, s', t, floor, models)
  {
    var v :| floor <= v < |Snapshots(s, t)| && models == Merge(cfg.yaml, Snapshots(s, t)[v]);
    assert Snapshots(s', t)[v] == Snapshots(s, t)[v];
  }

  lemma ReadSinceGrows(s: State, s': State, t: Tenant, floor: nat, rows: seq<Row>)
    requires Snapshots(s, t) <= Snapshots(s', t)
    requires ReadSince(s, t, floor, rows)
    ensures ReadSince(s', t, floor, rows)
  {
    var v :| floor <= v < |Snapshots(s, t)| && rows == Snapshots(s, t)[v];
    assert Snapshots(s', t)[v] == Snapshots(s, t)[v];
  }

  lemma CacheNoOlder(cfg: Config, s: State, e: Event, t: Tenant, floor: nat, before: set<CallId>)
    requires Enabled(s, e) && NoOlder(cfg, s, t, floor, before) && t in Apply(cfg, s, e).cache
    ensures MergedSince(cfg, Apply(cfg, s, e), t, floor, Apply(cfg, s, e).cache[t].models)
  {
    SnapshotsGrow(cfg, s, e, t);
    if e.Fill? && s.calls[e.call].tenant == t {
      FillIsRecent(cfg, s, e, t, floor, before);
    } else {
      MergedSinceGrows(cfg, s, Apply(cfg, s, e), t, floor, s.cache[t].models);
    }
  }

  lemma FetchedNoOlder(cfg: Config, s: State, e: Event, t: Tenant, floor: nat, before: set<CallId>, c: CallId)
    requires Enabled(s, e) && NoOlder(cfg, s, t, floor, before)
    requires c in Apply(cfg, s, e).calls && Apply(cfg, s, e).calls[c].tenant == t &&
             Apply(cfg, s, e).calls[c].phase.Fetched?
    ensures ReadSince(Apply(cfg, s, e), t, floor, Apply(cfg, s, e).calls[c].phase.rows)
  {
    var s' := Apply(cfg, s, e);
    if e == Query(c) {
      assert s'.calls[c].phase.rows == Snapshots(s', t)[Current(s, t)];
    } else {
      FetchedStays(cfg, s, e, c);
      SnapshotsGrow(cfg, s, e, t);
      ReadSinceGrows(s, s', t, floor, s.calls[c].phase.rows);
    }
  }

  lemma FetchedStays(cfg: Config, s: State, e: Event, c: CallId)
    requires Enabled(s, e) && e != Query(c)
    requires c in Apply(cfg, s, e).calls && Apply(cfg, s, e).calls[c].phase.Fetched?
    ensures c in s.calls && s.calls[c] == Apply(cfg, s, e).calls[c]
  {
    if !Moves(e, c) {
      OthersStay(cfg, s, e, c);
    }
  }

  lemma ReturnedNoOlder(cfg: Config, s: State, e: Event, t: Tenant, floor: nat, before: set<CallId>, c: CallId)
    requires Enabled(s, e) && NoOlder(cfg, s, t, floor, before) && c !in before
    requires c in Apply(cfg, s, e).calls && Apply(cfg, s, e).calls[c].tenant == t &&
             Apply(cfg, s, e).calls[c].phase.Returned?
    ensures MergedSince(cfg, Apply(cfg, s, e), t, floor, Apply(cfg, s, e).calls[c].phase.models)
  {
    var s' := Apply(cfg, s, e);
    SnapshotsGrow(cfg, s, e, t);
    if e == Fill(c) {
      FillIsRecent(cfg, s, e, t, floor, before);
    } else if e == Look(c) || e == Recheck(c) {
      HitReturnsEntry(cfg, s, e, c);
      MergedSinceGrows(cfg, s, s', t, floor, s.cache[t].models);
    } else {
      ReturnedStays(cfg, s, e, c);
      MergedSinceGrows(cfg, s, s', t, floor, s.calls[c].phase.models);
    }
  }

  lemma HitReturnsEntry(cfg: Config, s: State, e: Event, c: CallId)
    requires Enabled(s, e) && (e == Look(c) || e == Recheck(c)) && Apply(cfg, s, e).calls[c].phase.Returned?
    ensures var t := s.calls[c].tenant;
            Fresh(s.cache, t, s.now) && Apply(cfg, s, e).calls[c] == s.calls[c].(phase := Returned(s.cache[t].models))
  {
  }

  lemma ReturnedStays(cfg: Config, s: State, e: Event, c: CallId)
    requires Enabled(s, e) && e != Fill(c) && e != Look(c) && e != Recheck(c)
    requires c in Apply(cfg, s, e).calls && Apply(cfg, s, e).calls[c].phase.Returned?
    ensures c in s.calls && s.calls[c] == Apply(cfg, s, e).calls[c]
  {
    if !Moves(e, c) {
      OthersStay(cfg, s, e, c);
    }
  }

  lemma NoOlderStep(cfg: Config, s: State, e: Event, t: Tenant, floor: nat, before: set<CallId>)
    requires Enabled(s, e) && NoOlder(cfg, s, t, floor, before)
    ensures NoOlder(cfg, Apply(cfg, s, e), t, floor, before)
  {
    var s' := Apply(cfg, s, e);
    SnapshotsGrow(cfg, s, e, t);
    if t in s'.cache {
      CacheNoOlder(cfg, s, e, t, floor, before);
    }
    forall c | c in s'.calls && s'.calls[c].tenant == t && s'.calls[c].phase.Fetched?
      ensures ReadSince(s', t, floor, s'.calls[c].phase.rows)
    {
      FetchedNoOlder(cfg, s, e, t, floor, before, c);
    }
    forall c | c in s'.calls && c !in before && s'.calls[c].tenant == t && s'.calls[c].phase.Returned?
      ensures MergedSince(cfg, s', t, floor, s'.calls[c].phase.models)
    {
      ReturnedNoOlder(cfg, s, e, t, floor, before, c);
    }
  }

  lemma FillIsRecent(cfg: Config, s: State, e: Event, t: Tenant, floor: nat, before: set<CallId>)
    requires Enabled(s, e) && NoOlder(cfg, s, t, floor, before)
    requires e.Fill? && s.calls[e.call].tenant == t
    ensures MergedSince(cfg, Apply(cfg, s, e), t, floor, Merge(cfg.yaml, s.calls[e.call].phase.rows))
  {
    var rows := s.calls[e.call].phase.rows;
    assert ReadSince(s, t, floor, rows);
    var v :| floor <= v < |Snapshots(s, t)| && rows == Snapshots(s, t)[v];
    SnapshotsGrow(cfg, s, e, t);
    assert Snapshots(Apply(cfg, s, e), t)[v] == rows;
  }

  lemma PopEstablishes(cfg: Config, s: State, c: CallId)
    requires Locked(s) && Enabled(s, Pop(c))
    ensures NoOlder(cfg, Apply(cfg, s, Pop(c)), s.calls[c].tenant, Current(s, s.calls[c].tenant),
                    Apply(cfg, s, Pop(c)).calls.Keys)
  {
    var s', t := Apply(cfg, s, Pop(c)), s.calls[c].tenant;
    forall d | d in s'.calls && s'.calls[d].tenant == t ensures !s'.calls[d].phase.Fetched? {
      if s'.calls[d].phase.Fetched? {
        MutualExclusion(s, c, d);
      }
    }
  }

  lemma {:induction false} NoOlderAlways(cfg: Config, r: Run, p: nat, l: nat)
    requires IsRun(cfg, r) && p < l < |r.states| && r.events[p].Pop?
    requires r.events[p].call in r.states[p].calls
    ensures NoOlder(cfg, r.states[l], r.states[p].calls[r.events[p].call].tenant,
                    Current(r.states[p], r.states[p].calls[r.events[p].call].tenant), r.states[p + 1].calls.Keys)
  {
    assert Steps(cfg, r, l - 1);
    if l == p + 1 {
      LockedAlways(cfg, r, p);
      PopEstablishes(cfg, r.states[p], r.events[p].call);
    } else {
      var t := r.states[p].calls[r.events[p].call].tenant;
      NoOlderAlways(cfg, r, p, l - 1);
      NoOlderStep(cfg, r.states[l - 1], r.events[l - 1], t, Current(r.states[p], t), r.states[p + 1].calls.Keys);
    }
  }

  predicate HasEvicted(s: State, c: CallId) {
    c in s.calls && s.calls[c].phase.Evicted?
  }

  /** A call that has returned from `invalidate` went through exactly the pop event. */
  lemma {:induction false} EvictionHappened(cfg: Config, r: Run, i: nat, j: nat, c: CallId) returns (p: nat)
    requires IsRun(cfg, r) && i <= j < |r.states|
    requires !HasEvicted(r.states[i], c) && HasEvicted(r.states[j], c)
    ensures i <= p < j && r.events[p] == Pop(c)
    ensures c in r.states[p].calls && r.states[p].calls[c].tenant == r.states[j].calls[c].tenant
  {
    assert Steps(cfg, r, j - 1);
    if HasEvicted(r.states[j - 1], c) {
      p := EvictionHappened(cfg, r, i, j - 1, c);
      TenantStays(cfg, r.states[j - 1], r.events[j - 1], c);
    } else {
      p := j - 1;
      EvictedByPop(cfg, r.states[p], r.events[p], c);
    }
  }

  lemma EvictedByPop(cfg: Config, s: State, e: Event, c: CallId)
    requires Enabled(s, e) && !HasEvicted(s, c) && HasEvicted(Apply(cfg, s, e), c)
    ensures e == Pop(c) && c in s.calls && s.calls[c].tenant == Apply(cfg, s, e).calls[c].tenant
  {
    if !Moves(e, c) {
      OthersStay(cfg, s, e, c);
    }
  }

  lemma {:induction false} CallsPersist(cfg: Config, r: Run, i: nat, j: nat, c: CallId)
    requires IsRun(cfg, r) && i <= j < |r.states| && c in r.states[i].calls
    ensures c in r.states[j].calls && r.states[j].calls[c].tenant == r.states[i].calls[c].tenant
  {
    if i < j {
      CallsPersist(cfg, r, i, j - 1, c);
      assert Steps(cfg, r, j - 1);
      TenantStays(cfg, r.states[j - 1], r.events[j - 1], c);
    }
  }

  /**
   Once an `invalidate` that was still under way at `i` has returned at `j`, every `list_models`
   for the tenant that starts at `j` or later returns the merge of a row set at least as recent
   as the one committed at `i`, whatever else runs in between.
   */
  lemma InvalidateIsABarrier(cfg: Config, r: Run, i: nat, j: nat, l: nat, invalidate: CallId, list: CallId)
    requires IsRun(cfg, r) && i <= j <= l < |r.states|
    requires !HasEvicted(r.states[i], invalidate) && HasEvicted(r.states[j], invalidate)
    requires list !in r.states[j].calls
    requires list in r.states[l].calls && r.states[l].calls[list].phase.Returned?
    requires r.states[l].calls[list].tenant == r.states[j].calls[invalidate].tenant
    ensures MergedSince(cfg, r.states[l], r.states[l].calls[list].tenant,
                        Current(r.states[i], r.states[l].calls[list].tenant), r.states[l].calls[list].phase.models)
  {
    var t := r.states[l].calls[list].tenant;
    var p := EvictionHappened(cfg, r, i, j, invalidate);
    NoOlderAlways(cfg, r, p, l);
    if list in r.states[p + 1].calls {
      CallsPersist(cfg, r, p + 1, j, list);
    }
    HistoryOnlyGrows(cfg, r, i, p, t);
    var s, floor := r.states[l], Current(r.states[p], t);
    var v :| floor <= v < |Snapshots(s, t)| && s.calls[list].phase.models == Merge(cfg.yaml, Snapshots(s, t)[v]);
  }

  lemma {:induction false} HistoryOnlyGrows(cfg: Config, r: Run, i: nat, j: nat, t: Tenant)
    requires IsRun(cfg, r) && i <= j < |r.states|
    ensures Snapshots(r.states[i], t) <= Snapshots(r.states[j], t)
  {
    if i < j {
      HistoryOnlyGrows(cfg, r, i, j - 1, t);
      assert Steps(cfg, r, j - 1);
      SnapshotsGrow(cfg, r.states[j - 1], r.events[j - 1], t);
    }
  }

  // ---------------------------------------------------------------------------
  // Staleness is bounded by the TTL
  // ---------------------------------------------------------------------------

  ghost predicate FilledBy(cfg: Config, r: Run, t: Tenant, q: nat, f: nat)
    requires IsRun(cfg, r) && q < f < |r.events|
  {
    && r.events[f].Fill? && r.events[q] == Query(r.events[f].call)
    && r.events[f].call in r.states[q].calls && r.states[q].calls[r.events[f].call].tenant == t
    && r.events[f].call in r.states[f].calls && r.states[f].calls[r.events[f].call].tenant == t
  }

  ghost predicate NoPop(r: Run, t: Tenant, i: nat, j: nat)
    requires |r.states| == |r.events| + 1 && i <= j < |r.states|
  {
    forall p :: i <= p < j && r.events[p].Pop? && r.events[p].call in r.states[p].calls ==>
      r.states[p].calls[r.events[p].call].tenant != t
  }

  lemma {:induction false} FetchedFrom(cfg: Config, r: Run, k: nat, c: CallId) returns (q: nat)
    requires IsRun(cfg, r) && k < |r.states| && c in r.states[k].calls && r.states[k].calls[c].phase.Fetched?
    ensures q < k && r.events[q] == Query(c) && c in r.states[q].calls
    ensures r.states[q].calls[c].tenant == r.states[k].calls[c].tenant
    ensures r.states[k].calls[c].phase.rows ==
            Snapshots(r.states[q], r.states[k].calls[c].tenant)[Current(r.states[q], r.states[k].calls[c].tenant)]
  {
    assert Steps(cfg, r, k - 1);
    if r.events[k - 1] == Query(c) {
      q := k - 1;
    } else {
      FetchedStays(cfg, r.states[k - 1], r.events[k - 1], c);
      q := FetchedFrom(cfg, r, k - 1, c);
    }
  }

  /** Every cached entry was read at `q`, stored at `f` later on, and not popped since. */
  lemma {:induction false} EntryOrigin(cfg: Config, r: Run, k: nat, t: Tenant) returns (q: nat, f: nat)
    requires IsRun(cfg, r) && k < |r.states| && t in r.states[k].cache
    ensures q < f < k && FilledBy(cfg, r, t, q, f) && NoPop(r, t, f, k)
    ensures r.states[k].cache[t] ==
            CacheEntry(r.states[f].now + cfg.ttl, Merge(cfg.yaml, Snapshots(r.states[q], t)[Current(r.states[q], t)]))
  {
    assert Steps(cfg, r, k - 1);
    var s, e := r.states[k - 1], r.events[k - 1];
    if e.Fill? && s.calls[e.call].tenant == t {
      f := k - 1;
      q := FetchedFrom(cfg, r, f, e.call);
    } else {
      q, f := EntryOrigin(cfg, r, k - 1, t);
    }
  }

  /**
   What a call returns straight from the cache, on the fast path or under the lock, is the merge
   of the rows committed at an earlier read `q`, was stored by that same reader at `f`, and is
   served while less than the TTL has passed since `f`, with no invalidation in between.
   */
  lemma HitIsRecent(cfg: Config, r: Run, k: nat, c: CallId) returns (q: nat, f: nat)
    requires IsRun(cfg, r) && k < |r.events| && r.events[k] in {Look(c), Recheck(c)}
    requires c in r.states[k + 1].calls && r.states[k + 1].calls[c].phase.Returned?
    ensures q < f < k
    ensures var t := r.states[k + 1].calls[c].tenant;
            && FilledBy(cfg, r, t, q, f) && NoPop(r, t, f, k)
            && r.states[k + 1].calls[c].phase.models ==
                Merge(cfg.yaml, Snapshots(r.states[q], t)[Current(r.states[q], t)])
    ensures r.states[k].now < r.states[f].now + cfg.ttl
  {
    assert Steps(cfg, r, k);
    q, f := EntryOrigin(cfg, r, k, r.states[k].calls[c].tenant);
  }

  // ---------------------------------------------------------------------------
  // Concurrent misses coalesce
  // ---------------------------------------------------------------------------

  /** A call only reads for `t` when `due` has been reached, as long as an entry lives until then. */
  ghost predicate Covered(s: State, t: Tenant, due: int) {
    && t in s.cache && s.cache[t].expiresAt >= due
    && (forall c :: Reads(s, t, c) ==> s.now >= due)
  }

  predicate Reads(s: State, t: Tenant, c: CallId) {
    c in s.calls && s.calls[c].tenant == t && (s.calls[c].phase.Reading? || s.calls[c].phase.Fetched?)
  }

  /** The entry stays until it is popped, or is replaced by one that lives longer. */
  lemma EntryStaysCovered(cfg: Config, s: State, e: Event, t: Tenant, due: int)
    requires Enabled(s, e) && Covered(s, t, due) && cfg.ttl >= 0
    requires e.Pop? ==> s.calls[e.call].tenant != t
    ensures t in Apply(cfg, s, e).cache && Apply(cfg, s, e).cache[t].expiresAt >= due
  {
    if e.Fill? && s.calls[e.call].tenant == t {
      assert Reads(s, t, e.call);
    }
  }

  /** A recheck goes on to read only when the entry is due. */
  lemma RecheckReadsWhenDue(cfg: Config, s: State, c: CallId, t: Tenant, due: int)
    requires Enabled(s, Recheck(c)) && Covered(s, t, due) && Reads(Apply(cfg, s, Recheck(c)), t, c)
    ensures s.now >= due
  {
  }

  /** No other event makes a call a reading one. */
  lemma ReadersWereReading(cfg: Config, s: State, e: Event, c: CallId, t: Tenant)
    requires Enabled(s, e) && e != Recheck(c) && Reads(Apply(cfg, s, e), t, c)
    ensures Reads(s, t, c)
  {
    if !Moves(e, c) {
      OthersStay(cfg, s, e, c);
    }
  }

  lemma CoveredStep(cfg: Config, s: State, e: Event, t: Tenant, due: int)
    requires Enabled(s, e) && Covered(s, t, due) && cfg.ttl >= 0
    requires e.Pop? ==> s.calls[e.call].tenant != t
    ensures Covered(Apply(cfg, s, e), t, due)
  {
    var s' := Apply(cfg, s, e);
    EntryStaysCovered(cfg, s, e, t, due);
    assert s'.now >= s.now;
    forall c | Reads(s', t, c) ensures s'.now >= due {
      if e == Recheck(c) {
        RecheckReadsWhenDue(cfg, s, c, t, due);
      } else {
        ReadersWereReading(cfg, s, e, c, t);
      }
    }
  }

  lemma FillEstablishes(cfg: Config, s: State, c: CallId)
    requires Locked(s) && Enabled(s, Fill(c))
    ensures Covered(Apply(cfg, s, Fill(c)), s.calls[c].tenant, s.now + cfg.ttl)
  {
    var s', t := Apply(cfg, s, Fill(c)), s.calls[c].tenant;
    forall d ensures !Reads(s', t, d) {
      if Reads(s', t, d) {
        MutualExclusion(s, c, d);
      }
    }
  }

  lemma {:induction false} ClockIsMonotone(cfg: Config, r: Run, i: nat, j: nat)
    requires IsRun(cfg, r) && i <= j < |r.states|
    ensures r.states[i].now <= r.states[j].now
  {
    if i < j {
      ClockIsMonotone(cfg, r, i, j - 1);
      assert Steps(cfg, r, j - 1);
    }
  }

  lemma {:induction false} CoveredUntilPop(cfg: Config, r: Run, f: nat, k: nat)
    requires IsRun(cfg, r) && cfg.ttl >= 0 && f < k < |r.states|
    requires r.events[f].Fill? && r.events[f].call in r.states[f].calls
    requires NoPop(r, r.states[f].calls[r.events[f].call].tenant, f, k)
    ensures Covered(r.states[k], r.states[f].calls[r.events[f].call].tenant, r.states[f].now + cfg.ttl)
  {
    assert Steps(cfg, r, k - 1);
    var t := r.states[f].calls[r.events[f].call].tenant;
    if k == f + 1 {
      LockedAlways(cfg, r, f);
      FillEstablishes(cfg, r.states[f], r.events[f].call);
    } else {
      CoveredUntilPop(cfg, r, f, k - 1);
      CoveredStep(cfg, r.states[k - 1], r.events[k - 1], t, r.states[f].now + cfg.ttl);
    }
  }

  /**
   However many calls miss at once, two successful reads of one tenant that are both stored lie at
   least the TTL apart, unless the tenant was invalidated between them. Inside that time the
   database is not even asked: a query for the tenant also comes only once the entry is due.
   */
  lemma MissesCoalesce(cfg: Config, r: Run, f: nat, k: nat, t: Tenant)
    requires IsRun(cfg, r) && f < k < |r.events|
    requires r.events[f].Fill? && r.events[f].call in r.states[f].calls &&
             r.states[f].calls[r.events[f].call].tenant == t
    requires r.events[k].Fill? || r.events[k].Query?
    requires r.events[k].call in r.states[k].calls && r.states[k].calls[r.events[k].call].tenant == t
    requires NoPop(r, t, f, k)
    ensures r.states[f].now + cfg.ttl <= r.states[k].now
  {
    assert Steps(cfg, r, k);
    if cfg.ttl < 0 {
      ClockIsMonotone(cfg, r, f, k);
    } else {
      CoveredUntilPop(cfg, r, f, k);
      assert Reads(r.states[k], t, r.events[k].call);
    }
  }
}
