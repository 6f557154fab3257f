/** What a change of the rules does, and what the next read shows of it. */
module RulesEffect {
  import opened Prelude
  import opened Cache
  import opened RuleEngine
  import opened RulesCache

  // ---------------------------------------------------------------------------
  // A read shows the table
  // ---------------------------------------------------------------------------

  lemma {:induction false} PlacePermutes(rule: StoredRule, sorted: seq<StoredRule>)
    ensures multiset(Place(rule, sorted)) == multiset(sorted) + multiset{rule}
  {
    if sorted != [] && sorted[|sorted| - 1].priority > rule.priority {
      PlacePermutes(rule, sorted[..|sorted| - 1]);
      assert sorted == sorted[..|sorted| - 1] + [sorted[|sorted| - 1]];
    }
  }

  ghost predicate Ascends(rules: seq<StoredRule>) {
    forall i, j :: 0 <= i < j < |rules| ==> rules[i].priority <= rules[j].priority
  }

  lemma {:induction false} PlaceAscends(rule: StoredRule, sorted: seq<StoredRule>)
    requires Ascends(sorted)
    ensures Ascends(Place(rule, sorted))
  {
    if sorted != [] && sorted[|sorted| - 1].priority > rule.priority {
      var before, last := sorted[..|sorted| - 1], sorted[|sorted| - 1];
      PlaceAscends(rule, before);
      PlacePermutes(rule, before);
      forall i | 0 <= i < |Place(rule, before)| ensures Place(rule, before)[i].priority <= last.priority {
        assert Place(rule, before)[i] in multiset(Place(rule, before));
        assert Place(rule, before)[i] == rule || Place(rule, before)[i] in before;
      }
    }
  }

  lemma {:induction false} OrderedPermutes(rules: seq<StoredRule>)
    ensures multiset(Ordered(rules)) == multiset(rules)
  {
    if rules != [] {
      var before, last := rules[..|rules| - 1], rules[|rules| - 1];
      OrderedPermutes(before);
      PlacedLast(before, Ordered(before), last, rules);
    }
  }

  lemma PlacedLast(before: seq<StoredRule>, sorted: seq<StoredRule>, last: StoredRule, all: seq<StoredRule>)
    requires all == before + [last] && multiset(sorted) == multiset(before)
    ensures multiset(Place(last, sorted)) == multiset(all)
  {
    PlacePermutes(last, sorted);
    MultisetSnoc(before, last, all);
  }

  lemma {:induction false} OrderedAscends(rules: seq<StoredRule>)
    ensures Ascends(Ordered(rules))
  {
    if rules != [] {
      OrderedAscends(rules[..|rules| - 1]);
      PlaceAscends(rules[|rules| - 1], Ordered(rules[..|rules| - 1]));
    }
  }

  /** The listing holds every row of the table once, by ascending priority. */
  lemma OrderedMeaning(rules: seq<StoredRule>)
    ensures IsSorted(Ordered(rules), rules)
  {
    OrderedPermutes(rules);
    OrderedAscends(rules);
  }

  lemma MultisetSnoc(before: seq<StoredRule>, last: StoredRule, all: seq<StoredRule>)
    requires all == before + [last]
    ensures multiset(all) == multiset(before) + multiset{last}
  {
  }

  /** What a client is shown of a rule: its columns, and the conditions filed under it. */
  function Shown(tenant: Tenant, r: StoredRule, all: seq<StoredCondition>): RuleResponse {
    RuleResponse(r.id, tenant, r.name, r.priority, r.isActive, r.isDefault, r.target, WithRuleId(all, r.id), r.created,
                 r.updated)
  }

  /** These responses are the rules of a table, each once and by ascending priority. */
  ghost predicate ShowsTable(out: seq<RuleResponse>, tenant: Tenant, rules: seq<StoredRule>, all: seq<StoredCondition>)
  {
    exists sorted: seq<StoredRule> :: IsSorted(sorted, rules) && |out| == |sorted|
      && forall i :: 0 <= i < |out| ==> out[i] == Shown(tenant, sorted[i], all)
  }

  ghost predicate IsSorted(sorted: seq<StoredRule>, rules: seq<StoredRule>) {
    multiset(sorted) == multiset(rules) && Ascends(sorted)
  }

  /** Cached or not, after a history whose lost invalidations were made good a read shows the tenant's table. */
  lemma ReadShowsTable(k: Codec, s: State, ops: seq<Operation>, tenant: Tenant, reached: bool,
                       all: seq<StoredCondition>, served: seq<RuleResponse>)
    requires RoundTrips(k) && Coherent(k, s, tenant) && RulesCache.Settled(k, s, ops, tenant)
    requires Joined(k, Listed(Run(k, s, ops), tenant, reached), all, served)
    ensures ShowsTable(served, tenant, RulesOf(Run(k, s, ops), tenant), all)
  {
    RunKeepsCoherence(k, s, ops, tenant);
    var rules := RulesOf(Run(k, s, ops), tenant);
    var sorted := Ordered(rules);
    OrderedMeaning(rules);
    forall i | 0 <= i < |served| ensures served[i] == Shown(tenant, sorted[i], all) {
      RowIsShown(k, tenant, sorted[i], all, Listed(Run(k, s, ops), tenant, reached)[i]);
    }
  }

  /** A row in either form joins to what is shown of its rule. */
  lemma RowIsShown(k: Codec, tenant: Tenant, r: StoredRule, all: seq<StoredCondition>, row: Row)
    requires RoundTrips(k) && (row == FreshRow(tenant, r) || row == ThroughJson(k, FreshRow(tenant, r)))
    ensures Response(k, row, ConditionsFor(k, all, SpellId(k, row.id))) == Shown(tenant, r, all)
  {
    JoinIsById(k, all, r.id);
    assert k.parseId(k.spellId(r.id)) == r.id && k.parseId(k.spellId(tenant)) == tenant;
    assert k.parseTime(k.spellTime(r.created)) == r.created && k.parseTime(k.spellTime(r.updated)) == r.updated;
  }

  // ---------------------------------------------------------------------------
  // What the changes do to the table
  // ---------------------------------------------------------------------------

  /** No rule but the one at `i` has this name or this priority. */
  predicate Free(rules: seq<StoredRule>, i: int, name: string, priority: int) {
    forall j :: 0 <= j < |rules| && j != i ==> rules[j].name != name && rules[j].priority != priority
  }

  lemma Clash(rules: seq<StoredRule>, i: nat, j: nat)
    requires i < |rules| && j < |rules| && i != j
    requires rules[j].name == rules[i].name || rules[j].priority == rules[i].priority
    ensures !KeysHold(rules)
  {
    var a, b := if i < j then i else j, if i < j then j else i;
    assert rules[a].name == rules[b].name || rules[a].priority == rules[b].priority;
  }

  predicate OnlyAt(rules: seq<StoredRule>, i: nat, id: nat) {
    i < |rules| && rules[i].id == id && forall j :: 0 <= j < |rules| && j != i ==> rules[j].id != id
  }

  /** The cache as a change leaves it: without the tenant's entry, if the invalidation arrived. */
  predicate Invalidated(before: State, after: State, tenant: Tenant, dropped: bool) {
    && (dropped ==> tenant !in after.cache) && (!dropped ==> after.cache == before.cache)
    && forall t :: t != tenant && t in before.cache ==> t in after.cache && after.cache[t] == before.cache[t]
  }

  /** Exactly the columns given change, of exactly the rule named, if no other rule has the name or the priority. */
  lemma UpdateExactly(k: Codec, s: State, tenant: Tenant, i: nat, id: nat, name: string, priority: int,
                      isDefault: bool, target: string, now: nat, dropped: bool)
    requires KeysHold(RulesOf(s, tenant)) && OnlyAt(RulesOf(s, tenant), i, id)
    ensures var before := RulesOf(s, tenant);
            var s' := Step(k, s, Update(tenant, id, name, priority, isDefault, target, now, dropped));
            var r := before[i];
            if Free(before, i, name, priority)
            then && RulesOf(s', tenant) ==
                      before[i := StoredRule(id, name, priority, r.isActive, isDefault, target, r.created, now)]
                 && s'.conditions == s.conditions && Invalidated(s, s', tenant, dropped)
            else s' == s
  {
    var before := RulesOf(s, tenant);
    var after := Updated(before, id, name, priority, isDefault, target, now);
    var r := before[i];
    assert after == before[i := StoredRule(id, name, priority, r.isActive, isDefault, target, r.created, now)];
    if !Free(before, i, name, priority) {
      var j :| 0 <= j < |before| && j != i && (before[j].name == name || before[j].priority == priority);
      Clash(after, i, j);
    }
  }

  /** A new rule is added, active, if no rule has its name or its priority. */
  lemma CreateExactly(k: Codec, s: State, tenant: Tenant, rule: StoredRule, dropped: bool)
    requires KeysHold(RulesOf(s, tenant))
    ensures var before, s' := RulesOf(s, tenant), Step(k, s, Create(tenant, rule, dropped));
            if Free(before, -1, rule.name, rule.priority)
            then && RulesOf(s', tenant) == before + [rule.(isActive := true)]
                 && s'.conditions == s.conditions && Invalidated(s, s', tenant, dropped)
            else s' == s
  {
    var before := RulesOf(s, tenant);
    var after := before + [rule.(isActive := true)];
    if !Free(before, -1, rule.name, rule.priority) {
      var j :| 0 <= j < |before| && (before[j].name == rule.name || before[j].priority == rule.priority);
      Clash(after, |before|, j);
    }
  }

  lemma {:induction false} WithoutMeaning(rules: seq<StoredRule>, id: nat)
    ensures forall r :: r in WithoutRule(rules, id) <==> r in rules && r.id != id
    ensures KeysHold(rules) ==> KeysHold(WithoutRule(rules, id))
  {
    if rules != [] {
      WithoutMeaning(rules[..|rules| - 1], id);
      assert rules == rules[..|rules| - 1] + [rules[|rules| - 1]];
      if KeysHold(rules) && rules[|rules| - 1].id != id {
        var kept := WithoutRule(rules[..|rules| - 1], id);
        forall i | 0 <= i < |kept|
          ensures kept[i].name != rules[|rules| - 1].name && kept[i].priority != rules[|rules| - 1].priority
        {
          assert kept[i] in kept;
          var j :| 0 <= j < |rules| - 1 && rules[j] == kept[i];
        }
      }
    }
  }

  lemma {:induction false} WithoutConditionsMeaning(all: seq<StoredCondition>, id: nat, other: nat)
    ensures WithRuleId(WithoutConditions(all, id), other) == if other == id then [] else WithRuleId(all, other)
  {
    if all != [] {
      WithoutConditionsMeaning(all[..|all| - 1], id, other);
      var kept := WithoutConditions(all[..|all| - 1], id);
      assert (kept + [all[|all| - 1]])[..|kept|] == kept;
    }
  }

  /** A deletion takes exactly the rule named, and exactly its conditions. */
  lemma DeleteExactly(k: Codec, s: State, tenant: Tenant, id: nat, dropped: bool, other: nat)
    ensures var before, s' := RulesOf(s, tenant), Step(k, s, Delete(tenant, id, dropped));
            && (forall r :: r in RulesOf(s', tenant) <==> r in before && r.id != id)
            && (!HasRule(before, id) ==> s' == s)
            && (HasRule(before, id) ==>
                  && Invalidated(s, s', tenant, dropped)
                  && WithRuleId(s'.conditions, other) == if other == id then [] else WithRuleId(s.conditions, other))
  {
    WithoutMeaning(RulesOf(s, tenant), id);
    WithoutConditionsMeaning(s.conditions, id, other);
  }

  /** The priority a reordering gives the rule. */
  function PriorityAfter(r: StoredRule, priorities: map<nat, int>): int {
    if r.id in priorities then priorities[r.id] else r.priority
  }

  /** A reordering gives every rule named its new priority and leaves the rest, if all priorities stay different. */
  lemma ReorderExactly(k: Codec, s: State, tenant: Tenant, priorities: map<nat, int>, now: nat, dropped: bool)
    requires KeysHold(RulesOf(s, tenant)) && priorities != map[]
    ensures var before, s' := RulesOf(s, tenant), Step(k, s, Reorder(tenant, priorities, now, dropped));
            var after := RulesOf(s', tenant);
            if forall i, j :: 0 <= i < j < |before| ==>
                 PriorityAfter(before[i], priorities) != PriorityAfter(before[j], priorities)
            then && |after| == |before| && s'.conditions == s.conditions && Invalidated(s, s', tenant, dropped)
                 && forall i :: 0 <= i < |before| ==>
                      if before[i].id in priorities
                      then after[i] == before[i].(priority := priorities[before[i].id], updated := now)
                      else after[i] == before[i]
            else s' == s
  {
    ReorderedKeys(RulesOf(s, tenant), priorities, now);
  }

  lemma ReorderedKeys(before: seq<StoredRule>, priorities: map<nat, int>, now: nat)
    requires KeysHold(before)
    ensures KeysHold(Reordered(before, priorities, now)) <==>
            forall i, j :: 0 <= i < j < |before| ==>
              PriorityAfter(before[i], priorities) != PriorityAfter(before[j], priorities)
  {
    var after := Reordered(before, priorities, now);
    forall i | 0 <= i < |before|
      ensures after[i].priority == PriorityAfter(before[i], priorities) && after[i].name == before[i].name
    {
    }
    if i, j :| && 0 <= i < j < |before|
               && PriorityAfter(before[i], priorities) == PriorityAfter(before[j], priorities) {
      Clash(after, i, j);
    }
  }

  lemma {:induction false} WithRuleIdConcat(a: seq<StoredCondition>, b: seq<StoredCondition>, id: nat)
    ensures WithRuleId(a + b, id) == WithRuleId(a, id) + WithRuleId(b, id)
  {
    if b == [] {
      assert a + b == a;
    } else {
      WithRuleIdConcat(a, b[..|b| - 1], id);
      assert (a + b)[..|a + b| - 1] == a + b[..|b| - 1];
    }
  }

  /** A preset's rules come after the tenant's own, each with its conditions, or nothing happens. */
  lemma PresetExactly(k: Codec, s: State, tenant: Tenant, added: seq<StoredRule>, conditions: seq<StoredCondition>,
                      dropped: bool, id: nat)
    ensures var before, s' := RulesOf(s, tenant), Step(k, s, ApplyPreset(tenant, added, conditions, dropped));
            if KeysHold(before + added)
            then && RulesOf(s', tenant) == before + added && Invalidated(s, s', tenant, dropped)
                 && WithRuleId(s'.conditions, id) == WithRuleId(s.conditions, id) + WithRuleId(conditions, id)
            else s' == s
  {
    WithRuleIdConcat(s.conditions, conditions, id);
  }

  /** New conditions take the place of all the rule's old ones; other rules, and the cache, stay as they are. */
  lemma ReplaceExactly(k: Codec, s: State, id: nat, conditions: seq<StoredCondition>, other: nat)
    requires forall i :: 0 <= i < |conditions| ==> conditions[i].ruleId == id
    ensures var s' := Step(k, s, ReplaceConditions(id, conditions));
            if conditions == [] || exists t :: t in s.rules && HasRule(s.rules[t], id)
            then && s'.rules == s.rules && s'.cache == s.cache
                 && WithRuleId(s'.conditions, other) ==
                      if other == id then conditions else WithRuleId(s.conditions, other)
            else s' == s
  {
    ReplacedConditions(s.conditions, id, conditions, other);
    assert Known(s, id) <==> exists t :: t in s.rules && HasRule(s.rules[t], id);
  }

  lemma ReplacedConditions(all: seq<StoredCondition>, id: nat, conditions: seq<StoredCondition>, other: nat)
    requires forall i :: 0 <= i < |conditions| ==> conditions[i].ruleId == id
    ensures WithRuleId(WithoutConditions(all, id) + conditions, other) ==
            if other == id then conditions else WithRuleId(all, other)
  {
    WithoutConditionsMeaning(all, id, other);
    WithRuleIdConcat(WithoutConditions(all, id), conditions, other);
    AllOfOneRule(conditions, id, other);
  }

  lemma {:induction false} AllOfOneRule(conditions: seq<StoredCondition>, id: nat, other: nat)
    requires forall i :: 0 <= i < |conditions| ==> conditions[i].ruleId == id
    ensures WithRuleId(conditions, other) == if other == id then conditions else []
  {
    if conditions != [] {
      AllOfOneRule(conditions[..|conditions| - 1], id, other);
    }
  }

  /** A read that misses stores what it read, but never an empty list. */
  lemma ReadStoresExactly(k: Codec, s: State, tenant: Tenant, reached: bool, cleaned: bool, stored: bool)
    requires !(reached && tenant in s.cache && s.cache[tenant].Decodes?)
    ensures var s' := Step(k, s, List(tenant, reached, cleaned, stored));
            && s'.rules == s.rules && s'.conditions == s.conditions
            && (stored && RulesOf(s, tenant) != [] ==>
                  tenant in s'.cache && s'.cache[tenant] ==
                    Decodes(AllThroughJson(k, FreshList(tenant, RulesOf(s, tenant)))))
            && (RulesOf(s, tenant) == [] || !stored ==>
                  tenant in s'.cache ==> tenant in s.cache && s'.cache[tenant] == s.cache[tenant])
            && (tenant in s.cache && !stored && !(reached && cleaned) ==> s'.cache == s.cache)
  {
    OrderedMeaning(RulesOf(s, tenant));
    assert |multiset(Ordered(RulesOf(s, tenant)))| == |multiset(RulesOf(s, tenant))|;
  }

  /** Names and priorities stay unique over every history. */
  lemma {:induction false} KeysAlways(k: Codec, s: State, ops: seq<Operation>, tenant: Tenant)
    requires KeysHold(RulesOf(s, tenant))
    ensures KeysHold(RulesOf(Run(k, s, ops), tenant))
  {
    if ops != [] {
      var before, op := Run(k, s, ops[..|ops| - 1]), ops[|ops| - 1];
      KeysAlways(k, s, ops[..|ops| - 1], tenant);
      if op.ReplaceConditions? || op.tenant != tenant {
        TenantsAreSeparate(k, before, op, tenant);
      } else if op.Delete? {
        WithoutMeaning(RulesOf(before, tenant), op.id);
      }
    }
  }

  // ---------------------------------------------------------------------------
  // The next read
  // ---------------------------------------------------------------------------

  /** Some response shows the rule with these columns. */
  ghost predicate ShowsRule(out: seq<RuleResponse>, id: nat, name: string, priority: int, isDefault: bool,
                            target: string)
  {
    exists i :: 0 <= i < |out| && out[i].id == id && out[i].name == name && out[i].priority == priority
                && out[i].isDefault == isDefault && out[i].target == target
  }

  lemma TableRowIsShown(out: seq<RuleResponse>, tenant: Tenant, rules: seq<StoredRule>, all: seq<StoredCondition>,
                        r: StoredRule)
    requires ShowsTable(out, tenant, rules, all) && r in rules
    ensures ShowsRule(out, r.id, r.name, r.priority, r.isDefault, r.target)
  {
    var sorted :| IsSorted(sorted, rules) && |out| == |sorted|
                  && forall i :: 0 <= i < |out| ==> out[i] == Shown(tenant, sorted[i], all);
    assert r in multiset(sorted);
    var i :| 0 <= i < |sorted| && sorted[i] == r;
    assert out[i].id == r.id;
  }

  /** After an accepted update whose invalidation arrived, whatever the cache held before, the next read shows it. */
  lemma ReadAfterUpdate(k: Codec, s: State, tenant: Tenant, reached: bool, i: nat, id: nat, name: string,
                        priority: int, isDefault: bool, target: string, at: nat, all: seq<StoredCondition>,
                        served: seq<RuleResponse>)
    requires RoundTrips(k) && KeysHold(RulesOf(s, tenant)) && OnlyAt(RulesOf(s, tenant), i, id)
    requires Free(RulesOf(s, tenant), i, name, priority)
    requires Joined(k, Listed(Step(k, s, Update(tenant, id, name, priority, isDefault, target, at, true)), tenant,
                              reached), all, served)
    ensures ShowsRule(served, id, name, priority, isDefault, target)
  {
    var now := Step(k, s, Update(tenant, id, name, priority, isDefault, target, at, true));
    UpdateExactly(k, s, tenant, i, id, name, priority, isDefault, target, at, true);
    ReadShowsTable(k, now, [], tenant, reached, all, served);
    TableRowIsShown(served, tenant, RulesOf(now, tenant), all, RulesOf(now, tenant)[i]);
  }
}
