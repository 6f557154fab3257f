/**
 The registry service object: its dicts, the loops of the merge, and one uninterrupted call of
 each public method. What interleaved calls do is the subject of `RegistryProtocol`, which uses
 the same functions on the dicts.
 */
module RegistryService {
  import opened Prelude
  import opened RegistryMerge
  import opened RegistryProtocol

  class ModelRegistryService {
    const yaml: seq<ModelEntry>
    const ttl: int
    var cache: map<Tenant, CacheEntry>
    var tenantLocks: map<Tenant, LockId>
    var nextLock: LockId

    constructor (yamlModels: seq<YamlModel>, ttl: int)
      ensures yaml == NormalizeAll(yamlModels) && this.ttl == ttl
      ensures cache == map[] && tenantLocks == map[] && nextLock == 0
    {
      this.yaml := NormalizeAll(yamlModels);
      this.ttl := ttl;
      cache, tenantLocks, nextLock := map[], map[], 0;
    }

    method LockFor(t: Tenant) returns (lock: LockId)
      modifies this`tenantLocks, this`nextLock
      ensures tenantLocks == LockTable(old(tenantLocks), t, old(nextLock)) && lock == tenantLocks[t]
      ensures nextLock == if t in old(tenantLocks) then old(nextLock) else old(nextLock) + 1
    {
      if t !in tenantLocks {
        tenantLocks := tenantLocks[t := nextLock];
        nextLock := nextLock + 1;
      }
      lock := tenantLocks[t];
    }

    /** The merge as the source computes it: one pass over the rows, one over the yaml, one over the dict. */
    method Compute(rows: seq<Row>) returns (merged: seq<ModelEntry>)
      ensures merged == Merge(yaml, rows)
      ensures forall e :: e in merged <==> SystemVisible(yaml, rows, e) || CustomVisible(rows, e)
    {
      var order: seq<string>, byName: map<string, Row>, hidden: set<string> := [], map[], {};
      for i := 0 to |rows|
        invariant order == CustomOrder(rows[..i]) && byName == CustomByName(rows[..i])
        invariant hidden == HiddenNames(rows[..i])
      {
        var row := rows[i];
        assert rows[..i + 1][..i] == rows[..i];
        HiddenGrow(rows, i);
        if row.origin == CUSTOM {
          if row.name !in byName {
            order := order + [row.name];
          }
          OrderCoversDict(rows[..i]);
          byName := byName[row.name := row];
        } else if row.origin == HIDE_SYSTEM {
          hidden := hidden + {row.name};
        }
      }
      assert rows[..|rows|] == rows;
      OrderCoversDict(rows);

      merged := [];
      for i := 0 to |yaml|
        invariant merged == Visible(yaml[..i], byName.Keys, hidden)
      {
        assert yaml[..i + 1][..i] == yaml[..i];
        if yaml[i].name in byName { continue; }
        if yaml[i].name in hidden { continue; }
        merged := merged + [yaml[i]];
      }
      assert yaml[..|yaml|] == yaml;

      ghost var system := merged;
      for i := 0 to |order|
        invariant merged == system + CustomEntries(order, byName)[..i]
      {
        merged := merged + [FromRow(byName[order[i]])];
      }
      assert CustomEntries(order, byName)[..|order|] == CustomEntries(order, byName);
      forall e ensures e in merged <==> SystemVisible(yaml, rows, e) || CustomVisible(rows, e) {
        MergeMembers(yaml, rows, e);
      }
    }

    /**
     One `list_models` call that nothing interrupts. The clock shows `first` at the fast path,
     `second` under the lock and `third` when the entry is stored; the database answers `rows`.
     */
    method ListModels(t: Tenant, first: int, second: int, rows: seq<Row>, third: int) returns (models: seq<ModelEntry>)
      modifies this
      ensures Fresh(old(cache), t, first) || Fresh(old(cache), t, second) ==>
                models == old(cache)[t].models && cache == old(cache)
      ensures !Fresh(old(cache), t, first) && !Fresh(old(cache), t, second) ==>
                models == Merge(yaml, rows) && cache == Store(old(cache), t, models, third, ttl)
      ensures tenantLocks == if Fresh(old(cache), t, first) then old(tenantLocks)
                             else LockTable(old(tenantLocks), t, old(nextLock))
      ensures nextLock == if Fresh(old(cache), t, first) || t in old(tenantLocks) then old(nextLock)
              else old(nextLock) + 1
    {
      if Fresh(cache, t, first) {
        return cache[t].models;
      }
      var _ := LockFor(t);
      if Fresh(cache, t, second) {
        return cache[t].models;
      }
      models := Compute(rows);
      cache := Store(cache, t, models, third, ttl);
    }

    method GetPassthroughSet(t: Tenant, first: int, second: int, rows: seq<Row>, third: int)
      returns (names: set<string>)
      modifies this
      ensures names == PassthroughNames(if Fresh(old(cache), t, first) || Fresh(old(cache), t, second)
                                        then old(cache)[t].models
                                        else Merge(yaml, rows))
      ensures cache == if Fresh(old(cache), t, first) || Fresh(old(cache), t, second) then old(cache)
                       else Store(old(cache), t, Merge(yaml, rows), third, ttl)
      ensures tenantLocks == if Fresh(old(cache), t, first) then old(tenantLocks)
                             else LockTable(old(tenantLocks), t, old(nextLock))
    {
      var models := ListModels(t, first, second, rows, third);
      names := PassthroughNames(models);
    }

    method Invalidate(t: Tenant)
      modifies this
      ensures cache == old(cache) - {t}
      ensures tenantLocks == LockTable(old(tenantLocks), t, old(nextLock))
      ensures nextLock == if t in old(tenantLocks) then old(nextLock) else old(nextLock) + 1
    {
      var _ := LockFor(t);
      cache := cache - {t};
    }
  }

  lemma HiddenGrow(rows: seq<Row>, i: nat)
    requires i < |rows|
    ensures HiddenNames(rows[..i + 1]) ==
            HiddenNames(rows[..i]) + if rows[i].origin == HIDE_SYSTEM then {rows[i].name} else {}
  {
    var before, after := rows[..i], rows[..i + 1];
    forall n | n in HiddenNames(before) ensures n in HiddenNames(after) {
      var k :| 0 <= k < |before| && before[k].origin == HIDE_SYSTEM && before[k].name == n;
      assert after[k] == before[k];
    }
    assert after[i] == rows[i];
    forall n | n in HiddenNames(after)
      ensures n in HiddenNames(before) || (rows[i].origin == HIDE_SYSTEM && n == rows[i].name)
    {
      var k :| 0 <= k < |after| && after[k].origin == HIDE_SYSTEM && after[k].name == n;
      assert k < i ==> before[k] == after[k];
    }
  }

  function PassthroughNames(models: seq<ModelEntry>): set<string> {
    set i | 0 <= i < |models| && models[i].isPassthrough :: models[i].name
  }

  // ---------------------------------------------------------------------------
  // The uninterrupted call is a run of the protocol
  // ---------------------------------------------------------------------------

  /** A listing that finds a live entry is answered by its first event, which takes no lock and changes nothing else. */
  lemma SoloHit(cfg: Config, s: State, c: CallId)
    requires Enabled(s, Look(c)) && s.calls[c].kind.List?
    requires s.calls[c].tenant in s.cache && s.now < s.cache[s.calls[c].tenant].expiresAt
    ensures Apply(cfg, s, Look(c)) ==
            s.(calls := s.calls[c := Call(List, s.calls[c].tenant, Returned(s.cache[s.calls[c].tenant].models))])
  {
  }

  /** Alone and past the fast path, a `list_models` that misses leaves what the method leaves. */
  lemma SoloList(cfg: Config, r: Run, i: nat, c: CallId)
    requires IsRun(cfg, r) && i + 7 <= |r.events|
    requires r.events[i..i + 7] == [Look(c), TakeGuard(c), ResolveLock(c), TakeLock(c), Recheck(c), Query(c), Fill(c)]
    requires c in r.states[i].calls
    ensures var s, end, t := r.states[i], r.states[i + 7], r.states[i].calls[c].tenant;
            var models := Merge(cfg.yaml, Snapshots(s, t)[Current(s, t)]);
            && !Fresh(s.cache, t, s.now)
            && end.cache == Store(s.cache, t, models, s.now, cfg.ttl)
            && end.tenantLocks == LockTable(s.tenantLocks, t, s.nextLock)
            && c in end.calls && end.calls[c].phase == Returned(models)
  {
    assert r.events[i..i + 4] == r.events[i..i + 7][..4];
    FourSteps(cfg, r, i, c);
    ThreeEvents(r.events[i..i + 7], r, i);
    AfterRecheck(cfg, r, i + 4, c);
    AfterQuery(cfg, r, i + 5, c);
    AfterFill(cfg, r, i + 6, c);
  }

  lemma ThreeEvents(window: seq<Event>, r: Run, i: nat)
    requires i + 7 <= |r.events| && window == r.events[i..i + 7]
    ensures r.events[i + 4] == window[4] && r.events[i + 5] == window[5] && r.events[i + 6] == window[6]
  {
  }

  lemma AfterRecheck(cfg: Config, r: Run, i: nat, c: CallId)
    requires IsRun(cfg, r) && i + 1 < |r.events| && r.events[i] == Recheck(c) && r.events[i + 1] == Query(c)
    ensures var s := r.states[i];
            && c in s.calls && s.calls[c].phase.InSection? && !Fresh(s.cache, s.calls[c].tenant, s.now)
            && r.states[i + 1] == Goto(s, c, Reading(s.calls[c].phase.lock))
  {
    assert Steps(cfg, r, i) && Steps(cfg, r, i + 1);
  }

  lemma AfterQuery(cfg: Config, r: Run, i: nat, c: CallId)
    requires IsRun(cfg, r) && i < |r.events| && r.events[i] == Query(c)
    ensures var s := r.states[i];
            && c in s.calls && s.calls[c].phase.Reading?
            && var t := s.calls[c].tenant;
               r.states[i + 1] == Goto(s, c, Fetched(s.calls[c].phase.lock, Snapshots(s, t)[Current(s, t)]))
  {
    assert Steps(cfg, r, i);
  }

  lemma AfterFill(cfg: Config, r: Run, i: nat, c: CallId)
    requires IsRun(cfg, r) && i < |r.events| && r.events[i] == Fill(c)
    ensures var s, end := r.states[i], r.states[i + 1];
            && c in s.calls && s.calls[c].phase.Fetched?
            && var models := Merge(cfg.yaml, s.calls[c].phase.rows);
               && end.cache == Store(s.cache, s.calls[c].tenant, models, s.now, cfg.ttl) &&
                   end.tenantLocks == s.tenantLocks
               && c in end.calls && end.calls[c].phase == Returned(models)
  {
    assert Steps(cfg, r, i);
  }

  /** The way to the critical section is the same for both kinds of call. */
  lemma FourSteps(cfg: Config, r: Run, i: nat, c: CallId)
    requires IsRun(cfg, r) && i + 4 <= |r.events| && c in r.states[i].calls
    requires r.events[i..i + 4] == [Look(c), TakeGuard(c), ResolveLock(c), TakeLock(c)]
    ensures var s, mid := r.states[i], r.states[i + 4];
            && mid.cache == s.cache && mid.now == s.now && mid.history == s.history
            && mid.tenantLocks == LockTable(s.tenantLocks, s.calls[c].tenant, s.nextLock)
            && c in mid.calls && mid.calls[c].tenant == s.calls[c].tenant && mid.calls[c].phase.InSection?
            && mid.calls[c].kind == s.calls[c].kind
  {
    FourEvents(r.events[i..i + 4], r, i);
    AfterLook(cfg, r, i, c);
    AfterTakeGuard(cfg, r, i + 1, c);
    AfterResolveLock(cfg, r, i + 2, c);
    AfterTakeLock(cfg, r, i + 3, c);
  }

  lemma FourEvents(window: seq<Event>, r: Run, i: nat)
    requires i + 4 <= |r.events| && window == r.events[i..i + 4]
    ensures r.events[i] == window[0] && r.events[i + 1] == window[1]
    ensures r.events[i + 2] == window[2] && r.events[i + 3] == window[3]
  {
  }

  lemma AfterLook(cfg: Config, r: Run, i: nat, c: CallId)
    requires IsRun(cfg, r) && i + 1 < |r.events| && r.events[i] == Look(c) && r.events[i + 1] == TakeGuard(c)
    ensures c in r.states[i].calls && r.states[i + 1] == Goto(r.states[i], c, AwaitGuard)
  {
    assert Steps(cfg, r, i) && Steps(cfg, r, i + 1);
  }

  lemma AfterTakeGuard(cfg: Config, r: Run, i: nat, c: CallId)
    requires IsRun(cfg, r) && i < |r.events| && r.events[i] == TakeGuard(c)
    ensures c in r.states[i].calls && r.states[i + 1] == Goto(r.states[i].(guard := Some(c)), c, InGuard)
  {
    assert Steps(cfg, r, i);
  }

  lemma AfterResolveLock(cfg: Config, r: Run, i: nat, c: CallId)
    requires IsRun(cfg, r) && i < |r.events| && r.events[i] == ResolveLock(c)
    ensures var s, end := r.states[i], r.states[i + 1];
            && c in s.calls && end.cache == s.cache && end.now == s.now && end.history == s.history
            && end.tenantLocks == LockTable(s.tenantLocks, s.calls[c].tenant, s.nextLock)
            && c in end.calls && end.calls[c].tenant == s.calls[c].tenant && end.calls[c].kind == s.calls[c].kind
  {
    assert Steps(cfg, r, i);
  }

  lemma AfterTakeLock(cfg: Config, r: Run, i: nat, c: CallId)
    requires IsRun(cfg, r) && i < |r.events| && r.events[i] == TakeLock(c)
    ensures var s := r.states[i];
            && c in s.calls && s.calls[c].phase.AwaitLock?
            && var lock := s.calls[c].phase.lock;
               r.states[i + 1] == Goto(s.(owner := s.owner[lock := c]), c, InSection(lock))
  {
    assert Steps(cfg, r, i);
  }

  /** Alone, an `invalidate` leaves what the method leaves. */
  lemma SoloInvalidate(cfg: Config, r: Run, i: nat, c: CallId)
    requires IsRun(cfg, r) && i + 5 <= |r.events|
    requires r.events[i..i + 5] == [Look(c), TakeGuard(c), ResolveLock(c), TakeLock(c), Pop(c)]
    requires c in r.states[i].calls
    ensures var s, end, t := r.states[i], r.states[i + 5], r.states[i].calls[c].tenant;
            && end.cache == s.cache - {t}
            && end.tenantLocks == LockTable(s.tenantLocks, t, s.nextLock)
            && c in end.calls && end.calls[c].phase.Evicted?
  {
    assert r.events[i..i + 4] == r.events[i..i + 5][..4];
    FourSteps(cfg, r, i, c);
    assert r.events[i + 4] == r.events[i..i + 5][4];
    assert Steps(cfg, r, i + 4);
  }
}
