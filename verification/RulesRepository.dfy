/** The rules repository as an object, each call one step of the history model. */
module RulesRepository {
  import opened Prelude
  import opened Cache
  import opened RulesCache

  /** The two tables and the cache; a method's last flags say which Redis calls went through. */
  class RulesRepository {
    var rules: map<Tenant, seq<StoredRule>>
    var conditions: seq<StoredCondition>
    const cache: CacheManager<Tenant, seq<Row>>
    const codec: Codec

    function Now(): State
      reads this, cache
    {
      State(rules, conditions, cache.entries)
    }

    constructor (cache: CacheManager<Tenant, seq<Row>>, codec: Codec)
      ensures this.cache == cache && this.codec == codec
      ensures rules == map[] && conditions == []
    {
      this.cache, this.codec := cache, codec;
      rules, conditions := map[], [];
    }

    /** A transaction on one tenant's rules: refused by a unique constraint, or committed and the key deleted. */
    method Commit(tenant: Tenant, next: seq<StoredRule>, nextConditions: seq<StoredCondition>, dropped: bool)
      returns (ok: bool)
      modifies this, cache
      ensures ok == KeysHold(next)
      ensures Now() == Committed(old(Now()), tenant, next, nextConditions, dropped)
    {
      ok := KeysHold(next);
      if ok {
        rules, conditions := rules[tenant := next], nextConditions;
        var _ := cache.Delete(tenant, dropped);
      }
    }

    method CreateRule(tenant: Tenant, rule: StoredRule, dropped: bool) returns (ok: bool)
      modifies this, cache
      ensures Now() == Step(codec, old(Now()), Create(tenant, rule, dropped))
      ensures ok ==> rule.(isActive := true) in RulesOf(Now(), tenant)
      ensures !ok ==> Now() == old(Now())
    {
      var rows := RulesOf(Now(), tenant);
      ok := Commit(tenant, rows + [rule.(isActive := true)], conditions, dropped);
    }

    method UpdateRule(tenant: Tenant, id: nat, name: string, priority: int, isDefault: bool, target: string, now: nat,
                      dropped: bool)
      returns (ok: bool)
      modifies this, cache
      ensures Now() == Step(codec, old(Now()), Update(tenant, id, name, priority, isDefault, target, now, dropped))
      ensures !ok ==> Now() == old(Now())
    {
      ok := Commit(tenant, Updated(RulesOf(Now(), tenant), id, name, priority, isDefault, target, now), conditions,
                   dropped);
    }

    /** The key is deleted only when a row was. */
    method DeleteRule(tenant: Tenant, id: nat, dropped: bool) returns (deleted: bool)
      modifies this, cache
      ensures Now() == Step(codec, old(Now()), Delete(tenant, id, dropped))
      ensures deleted == HasRule(RulesOf(old(Now()), tenant), id)
    {
      deleted := HasRule(RulesOf(Now(), tenant), id);
      if deleted {
        rules := rules[tenant := WithoutRule(RulesOf(Now(), tenant), id)];
        conditions := WithoutConditions(conditions, id);
        var _ := cache.Delete(tenant, dropped);
      }
    }

    method ReorderRules(tenant: Tenant, priorities: map<nat, int>, now: nat, dropped: bool) returns (ok: bool)
      modifies this, cache
      ensures Now() == Step(codec, old(Now()), Reorder(tenant, priorities, now, dropped))
      ensures !ok ==> Now() == old(Now())
    {
      if priorities == map[] {
        return true;
      }
      ok := Commit(tenant, Reordered(RulesOf(Now(), tenant), priorities, now), conditions, dropped);
    }

    /** Conditions are never cached, so nothing is invalidated. */
    method ReplaceConditionsOf(id: nat, next: seq<StoredCondition>) returns (ok: bool)
      modifies this
      ensures Now() == Step(codec, old(Now()), ReplaceConditions(id, next))
      ensures ok == (next == [] || Known(old(Now()), id))
    {
      ok := next == [] || Known(Now(), id);
      if ok {
        conditions := WithoutConditions(conditions, id) + next;
      }
    }

    /** Cache first; on a miss of any kind the database, whose non-empty answer is stored. */
    method ListRules(tenant: Tenant, reached: bool, cleaned: bool, stored: bool) returns (rows: seq<Row>)
      modifies this, cache
      ensures rows == Listed(old(Now()), tenant, reached)
      ensures Now() == Step(codec, old(Now()), List(tenant, reached, cleaned, stored))
    {
      var found := cache.Get(tenant, reached, cleaned);
      if found.Some? {
        return found.value;
      }
      rows := FreshList(tenant, RulesOf(Now(), tenant));
      if rows != [] {
        var _ := cache.Set(tenant, AllThroughJson(codec, rows), stored);
      }
    }
  }
}
