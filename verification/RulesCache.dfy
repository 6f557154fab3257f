/** Routing rules in the database, their list in a Redis cache, and the joins that read both. */
module RulesCache {
  import opened Cache
  import opened Conditions
  import opened RuleEngine

  type Tenant = nat

  /** A UUID or timestamp column: the database driver's own object, or the text it has after a trip through JSON. */
  datatype Cell = Native(value: nat) | Spelled(text: string)

  datatype Row = Row(id: Cell, tenant: Cell, name: string, priority: int, isActive: bool, isDefault: bool,
                     target: string,
                     created: Cell, updated: Cell)

  datatype StoredRule = StoredRule(id: nat, name: string, priority: int, isActive: bool, isDefault: bool,
                                   target: string,
                                   created: nat, updated: nat)

  datatype StoredCondition = StoredCondition(id: nat, ruleId: nat, condition: Condition)

  /** `str(uuid)`, `isoformat`, and the parsers of the response model. */
  datatype Codec = Codec(spellId: nat -> string, parseId: string -> nat, spellTime: nat -> string,
                         parseTime: string -> nat)

  ghost predicate RoundTrips(k: Codec) {
    && (forall n: nat :: k.parseId(k.spellId(n)) == n)
    && (forall n: nat :: k.parseTime(k.spellTime(n)) == n)
  }

  // ---------------------------------------------------------------------------
  // Listing
  // ---------------------------------------------------------------------------

  function Place(rule: StoredRule, sorted: seq<StoredRule>): seq<StoredRule> {
    if sorted == [] then [rule]
    else if sorted[|sorted| - 1].priority <= rule.priority then sorted + [rule]
    else Place(rule, sorted[..|sorted| - 1]) + [sorted[|sorted| - 1]]
  }

  /** `ORDER BY priority ASC`. */
  function Ordered(rules: seq<StoredRule>): seq<StoredRule> {
    if rules == [] then [] else Place(rules[|rules| - 1], Ordered(rules[..|rules| - 1]))
  }

  function FreshRow(tenant: Tenant, r: StoredRule): Row {
    Row(Native(r.id), Native(tenant), r.name, r.priority, r.isActive, r.isDefault, r.target, Native(r.created),
        Native(r.updated))
  }

  /** The row after `json.dumps` with the custom encoder and `json.loads`. */
  function ThroughJson(k: Codec, row: Row): Row {
    row.(id := Spelled(SpellId(k, row.id)), tenant := Spelled(SpellId(k, row.tenant)),
         created := Spelled(SpellTime(k, row.created)), updated := Spelled(SpellTime(k, row.updated)))
  }

  /** `str` on either form. */
  function SpellId(k: Codec, cell: Cell): string {
    if cell.Native? then k.spellId(cell.value) else cell.text
  }

  function SpellTime(k: Codec, cell: Cell): string {
    if cell.Native? then k.spellTime(cell.value) else cell.text
  }

  function FreshList(tenant: Tenant, rules: seq<StoredRule>): seq<Row> {
    var sorted := Ordered(rules);
    seq(|sorted|, i requires 0 <= i < |sorted| => FreshRow(tenant, sorted[i]))
  }

  function AllThroughJson(k: Codec, rows: seq<Row>): (out: seq<Row>)
    ensures |out| == |rows| && forall i :: 0 <= i < |rows| ==> out[i] == ThroughJson(k, rows[i])
  {
    if rows == [] then [] else AllThroughJson(k, rows[..|rows| - 1]) + [ThroughJson(k, rows[|rows| - 1])]
  }

  // ---------------------------------------------------------------------------
  // The join
  // ---------------------------------------------------------------------------

  /** The conditions whose rule id, as text, is `key`: in table order. */
  function ConditionsFor(k: Codec, all: seq<StoredCondition>, key: string): seq<StoredCondition> {
    if all == [] then []
    else
      var before, last := ConditionsFor(k, all[..|all| - 1], key), all[|all| - 1];
      if k.spellId(last.ruleId) == key then before + [last] else before
  }

  datatype RuleResponse = RuleResponse(id: nat, tenant: nat, name: string, priority: int, isActive: bool,
                                       isDefault: bool, target: string,
                                       conditions: seq<StoredCondition>, created: nat, updated: nat)

  function ParseId(k: Codec, cell: Cell): nat {
    if cell.Native? then cell.value else k.parseId(cell.text)
  }

  function ParseTime(k: Codec, cell: Cell): nat {
    if cell.Native? then cell.value else k.parseTime(cell.text)
  }

  function Response(k: Codec, row: Row, conditions: seq<StoredCondition>): RuleResponse {
    RuleResponse(ParseId(k, row.id), ParseId(k, row.tenant), row.name, row.priority, row.isActive, row.isDefault,
                 row.target, conditions,
                 ParseTime(k, row.created), ParseTime(k, row.updated))
  }

  function Plain(conditions: seq<StoredCondition>): seq<Condition> {
    seq(|conditions|, i requires 0 <= i < |conditions| => conditions[i].condition)
  }

  /** The rule the engine evaluates, as the rule test assembles it. */
  function EngineRule(k: Codec, row: Row, conditions: seq<StoredCondition>): Rule {
    Rule(SpellId(k, row.id), row.name, row.priority, row.isActive, row.isDefault, row.target, Plain(conditions))
  }

  /** A rule list joined with the conditions table, both sides keyed by text. */
  ghost predicate Joined(k: Codec, rows: seq<Row>, all: seq<StoredCondition>, out: seq<RuleResponse>) {
    |out| == |rows| && forall i :: 0 <= i < |rows| ==>
        out[i] == Response(k, rows[i], ConditionsFor(k, all, SpellId(k, rows[i].id)))
  }

  ghost predicate Assembled(k: Codec, rows: seq<Row>, all: seq<StoredCondition>, out: seq<Rule>) {
    |out| == |rows| && forall i :: 0 <= i < |rows| ==>
        out[i] == EngineRule(k, rows[i], ConditionsFor(k, all, SpellId(k, rows[i].id)))
  }

  /** The dictionary both joins build, filled one condition at a time. */
  method GroupByRule(k: Codec, all: seq<StoredCondition>) returns (groups: map<string, seq<StoredCondition>>)
    ensures forall key :: ConditionsFor(k, all, key) == if key in groups then groups[key] else []
  {
    groups := map[];
    for i := 0 to |all|
      invariant forall key :: ConditionsFor(k, all[..i], key) == if key in groups then groups[key] else []
    {
      var c := all[i];
      var key := k.spellId(c.ruleId);
      assert all[..i + 1][..i] == all[..i];
      groups := groups[key := (if key in groups then groups[key] else []) + [c]];
    }
    assert all[..|all|] == all;
  }

  method BuildResponses(k: Codec, rows: seq<Row>, all: seq<StoredCondition>) returns (out: seq<RuleResponse>)
    ensures Joined(k, rows, all, out)
  {
    var groups := GroupByRule(k, all);
    out := [];
    for i := 0 to |rows|
      invariant Joined(k, rows[..i], all, out)
    {
      var key := SpellId(k, rows[i].id);
      out := out + [Response(k, rows[i], if key in groups then groups[key] else [])];
    }
    assert rows[..|rows|] == rows;
  }

  method AssembleRules(k: Codec, rows: seq<Row>, all: seq<StoredCondition>) returns (out: seq<Rule>)
    ensures Assembled(k, rows, all, out)
  {
    var groups := GroupByRule(k, all);
    out := [];
    for i := 0 to |rows|
      invariant Assembled(k, rows[..i], all, out)
    {
      var key := SpellId(k, rows[i].id);
      out := out + [EngineRule(k, rows[i], if key in groups then groups[key] else [])];
    }
    assert rows[..|rows|] == rows;
  }

  function WithRuleId(all: seq<StoredCondition>, ruleId: nat): seq<StoredCondition> {
    if all == [] then []
    else if all[|all| - 1].ruleId == ruleId then WithRuleId(all[..|all| - 1], ruleId) + [all[|all| - 1]]
    else WithRuleId(all[..|all| - 1], ruleId)
  }

  /** Joining by text gives each rule its own conditions and no others. */
  lemma {:induction false} JoinIsById(k: Codec, all: seq<StoredCondition>, ruleId: nat)
    requires RoundTrips(k)
    ensures ConditionsFor(k, all, k.spellId(ruleId)) == WithRuleId(all, ruleId)
  {
    if all != [] {
      JoinIsById(k, all[..|all| - 1], ruleId);
      assert k.parseId(k.spellId(ruleId)) == ruleId &&
             k.parseId(k.spellId(all[|all| - 1].ruleId)) == all[|all| - 1].ruleId;
    }
  }

  /** Either form of a list joins to the same responses and the same engine rules. */
  lemma FormsJoinAlike(k: Codec, tenant: Tenant, rules: seq<StoredRule>, all: seq<StoredCondition>,
                       fromDb: seq<RuleResponse>, fromCache: seq<RuleResponse>, dbRules: seq<Rule>,
                           cacheRules: seq<Rule>)
    requires RoundTrips(k)
    requires var rows := FreshList(tenant, rules);
             && Joined(k, rows, all, fromDb) && Joined(k, AllThroughJson(k, rows), all, fromCache)
             && Assembled(k, rows, all, dbRules) && Assembled(k, AllThroughJson(k, rows), all, cacheRules)
    ensures fromCache == fromDb && cacheRules == dbRules
  {
    var rows := FreshList(tenant, rules);
    var cached := AllThroughJson(k, rows);
    forall i | 0 <= i < |rows| ensures fromCache[i] == fromDb[i] && cacheRules[i] == dbRules[i] {
      assert cached[i] == ThroughJson(k, rows[i]);
      assert SpellId(k, cached[i].id) == SpellId(k, rows[i].id);
      var r := Ordered(rules)[i];
      assert k.parseId(k.spellId(r.id)) == r.id && k.parseId(k.spellId(tenant)) == tenant;
      assert k.parseTime(k.spellTime(r.created)) == r.created && k.parseTime(k.spellTime(r.updated)) == r.updated;
    }
  }

  // ---------------------------------------------------------------------------
  // Histories
  // ---------------------------------------------------------------------------

  datatype State = State(rules: map<Tenant, seq<StoredRule>>, conditions: seq<StoredCondition>, cache: map<Tenant,
                         Payload<seq<Row>>>)

  /** `dropped`: whether the Redis delete of the invalidation went through. */
  datatype Operation =
    | Create(tenant: Tenant, rule: StoredRule, dropped: bool)
    | Update(tenant: Tenant, id: nat, name: string, priority: int, isDefault: bool, target: string, now: nat,
             dropped: bool)
    | Delete(tenant: Tenant, id: nat, dropped: bool)
    | Reorder(tenant: Tenant, priorities: map<nat, int>, now: nat, dropped: bool)
    | ApplyPreset(tenant: Tenant, added: seq<StoredRule>, conditions: seq<StoredCondition>, dropped: bool)
    | ReplaceConditions(id: nat, conditions: seq<StoredCondition>)
    | List(tenant: Tenant, reached: bool, cleaned: bool, stored: bool)
    | Expire(tenant: Tenant)
    | Damage(tenant: Tenant)

  function RulesOf(s: State, tenant: Tenant): seq<StoredRule> {
    if tenant in s.rules then s.rules[tenant] else []
  }

  /** UNIQUE(tenant_id, name) and UNIQUE(tenant_id, priority). */
  predicate KeysHold(rules: seq<StoredRule>) {
    forall i, j :: 0 <= i < j < |rules| ==> rules[i].name != rules[j].name && rules[i].priority != rules[j].priority
  }

  predicate HasRule(rules: seq<StoredRule>, id: nat) {
    exists i :: 0 <= i < |rules| && rules[i].id == id
  }

  function Updated(rules: seq<StoredRule>, id: nat, name: string, priority: int, isDefault: bool, target: string,
                   now: nat): seq<StoredRule>
  {
    seq(|rules|, i requires 0 <= i < |rules| =>
      if rules[i].id == id
      then rules[i].(name := name, priority := priority, isDefault := isDefault, target := target, updated := now)
      else rules[i])
  }

  function Reordered(rules: seq<StoredRule>, priorities: map<nat, int>, now: nat): seq<StoredRule> {
    seq(|rules|, i requires 0 <= i < |rules| =>
      if rules[i].id in priorities then rules[i].(priority := priorities[rules[i].id], updated := now) else rules[i])
  }

  function WithoutRule(rules: seq<StoredRule>, id: nat): seq<StoredRule> {
    if rules == [] then []
    else if rules[|rules| - 1].id == id then WithoutRule(rules[..|rules| - 1], id)
    else WithoutRule(rules[..|rules| - 1], id) + [rules[|rules| - 1]]
  }

  function WithoutConditions(all: seq<StoredCondition>, ruleId: nat): seq<StoredCondition> {
    if all == [] then []
    else if all[|all| - 1].ruleId == ruleId then WithoutConditions(all[..|all| - 1], ruleId)
    else WithoutConditions(all[..|all| - 1], ruleId) + [all[|all| - 1]]
  }

  predicate Known(s: State, id: nat) {
    exists t :: t in s.rules && HasRule(s.rules[t], id)
  }

  /** New rows for a tenant, with its key deleted if Redis answers; a unique violation leaves everything alone. */
  function Committed(s: State, tenant: Tenant, rules: seq<StoredRule>, conditions: seq<StoredCondition>,
                     dropped: bool): State
  {
    if !KeysHold(rules) then s
    else State(s.rules[tenant := rules], conditions, if dropped then Without(s.cache, tenant) else s.cache)
  }

  /** A read is served from the cache. */
  predicate Hits(s: State, tenant: Tenant, reached: bool) {
    reached && tenant in s.cache && s.cache[tenant].Decodes?
  }

  /** The rows a read returns. */
  function Listed(s: State, tenant: Tenant, reached: bool): seq<Row> {
    if Hits(s, tenant, reached) then s.cache[tenant].value else FreshList(tenant, RulesOf(s, tenant))
  }

  function Step(k: Codec, s: State, op: Operation): State {
    match op
    case Create(t, rule, dropped) => Committed(s, t, RulesOf(s, t) + [rule.(isActive := true)], s.conditions, dropped)
    case Update(t, id, name, priority, isDefault, target, now, dropped) =>
      Committed(s, t, Updated(RulesOf(s, t), id, name, priority, isDefault, target, now), s.conditions, dropped)
    case Delete(t, id, dropped) =>
      if !HasRule(RulesOf(s, t), id) then s
      else State(s.rules[t := WithoutRule(RulesOf(s, t), id)], WithoutConditions(s.conditions, id),
                 if dropped then Without(s.cache, t) else s.cache)
    case Reorder(t, priorities, now, dropped) =>
      if priorities == map[] then s
      else Committed(s, t, Reordered(RulesOf(s, t), priorities, now), s.conditions, dropped)
    case ApplyPreset(t, added, conditions, dropped) =>
      Committed(s, t, RulesOf(s, t) + added, s.conditions + conditions, dropped)
    case ReplaceConditions(id, conditions) =>
      if conditions != [] && !Known(s, id) then s
      else s.(conditions := WithoutConditions(s.conditions, id) + conditions)
    case List(t, reached, cleaned, stored) =>
      if Hits(s, t, reached) then s
      else
        var kept := if reached && cleaned && t in s.cache then Without(s.cache, t) else s.cache;
        var rows := FreshList(t, RulesOf(s, t));
        s.(cache := if rows != [] && stored then kept[t := Decodes(AllThroughJson(k, rows))] else kept)
    case Expire(t) => s.(cache := Without(s.cache, t))
    case Damage(t) => if t in s.cache then s.(cache := s.cache[t := Undecodable]) else s
  }

  function Run(k: Codec, s: State, ops: seq<Operation>): State {
    if ops == [] then s else Step(k, Run(k, s, ops[..|ops| - 1]), ops[|ops| - 1])
  }

  /** A change to this tenant's rules whose invalidation, if it comes to one, is lost. */
  predicate Loses(op: Operation, tenant: Tenant) {
    match op
    case Create(t, _, dropped) => t == tenant && !dropped
    case Update(t, _, _, _, _, _, _, dropped) => t == tenant && !dropped
    case Delete(t, _, dropped) => t == tenant && !dropped
    case Reorder(t, _, _, dropped) => t == tenant && !dropped
    case ApplyPreset(t, _, _, dropped) => t == tenant && !dropped
    case _ => false
  }

  /**
   After every lost invalidation of the tenant, its entry was gone at some later moment: dropped by an effective
   invalidation, or expired. Other tenants, deletes of damaged entries and all other cache traffic may fail.
   */
  ghost predicate Settled(k: Codec, s: State, ops: seq<Operation>, tenant: Tenant) {
    ops == [] || tenant !in Run(k, s, ops).cache
    || (!Loses(ops[|ops| - 1], tenant) && Settled(k, s, ops[..|ops| - 1], tenant))
  }

  /** A decodable entry of the tenant is its current list, after its trip through JSON. */
  ghost predicate Coherent(k: Codec, s: State, t: Tenant) {
    t in s.cache && s.cache[t].Decodes? ==> s.cache[t].value == AllThroughJson(k, FreshList(t, RulesOf(s, t)))
  }

  lemma CommitKeepsCoherence(k: Codec, s: State, t: Tenant, tenant: Tenant, rules: seq<StoredRule>,
                             conditions: seq<StoredCondition>, dropped: bool)
    requires Coherent(k, s, t) && (tenant == t ==> dropped)
    ensures Coherent(k, Committed(s, tenant, rules, conditions, dropped), t)
  {
  }

  lemma StepKeepsCoherence(k: Codec, s: State, op: Operation, tenant: Tenant)
    requires Coherent(k, s, tenant) && !Loses(op, tenant)
    ensures Coherent(k, Step(k, s, op), tenant)
  {
    match op
    case Create(t, rule, dropped) =>
      CommitKeepsCoherence(k, s, tenant, t, RulesOf(s, t) + [rule.(isActive := true)], s.conditions, dropped);
    case Update(t, id, name, priority, isDefault, target, now, dropped) =>
      var next := Updated(RulesOf(s, t), id, name, priority, isDefault, target, now);
      CommitKeepsCoherence(k, s, tenant, t, next, s.conditions, dropped);
    case Reorder(t, priorities, now, dropped) =>
      CommitKeepsCoherence(k, s, tenant, t, Reordered(RulesOf(s, t), priorities, now), s.conditions, dropped);
    case ApplyPreset(t, added, conditions, dropped) =>
      CommitKeepsCoherence(k, s, tenant, t, RulesOf(s, t) + added, s.conditions + conditions, dropped);
    case List(t, reached, cleaned, stored) => ReadKeepsCoherence(k, s, tenant, t, reached, cleaned, stored);
    case _ =>
  }

  lemma ReadKeepsCoherence(k: Codec, s: State, tenant: Tenant, t: Tenant, reached: bool, cleaned: bool, stored: bool)
    requires Coherent(k, s, tenant)
    ensures Coherent(k, Step(k, s, List(t, reached, cleaned, stored)), tenant)
  {
    assert RulesOf(Step(k, s, List(t, reached, cleaned, stored)), tenant) == RulesOf(s, tenant);
  }

  lemma {:induction false} RunKeepsCoherence(k: Codec, s: State, ops: seq<Operation>, tenant: Tenant)
    requires Coherent(k, s, tenant) && Settled(k, s, ops, tenant)
    ensures Coherent(k, Run(k, s, ops), tenant)
  {
    if ops != [] && tenant in Run(k, s, ops).cache {
      RunKeepsCoherence(k, s, ops[..|ops| - 1], tenant);
      StepKeepsCoherence(k, Run(k, s, ops[..|ops| - 1]), ops[|ops| - 1], tenant);
    }
  }

  /**
   After any history from a state in which the tenant's entry is coherent, such as an empty cache, in which its
   lost invalidations were made good, a read joins to exactly what the database would give, whether it is served
   from the cache or not: responses, engine rules, and evaluations. `all` is what the conditions query returns.
   */
  lemma CacheIsTransparent(k: Codec, s: State, ops: seq<Operation>, tenant: Tenant, reached: bool,
                           all: seq<StoredCondition>,
                           served: seq<RuleResponse>, direct: seq<RuleResponse>,
                           servedRules: seq<Rule>, directRules: seq<Rule>, lib: Library, ctx: Context)
    requires RoundTrips(k) && Coherent(k, s, tenant) && Settled(k, s, ops, tenant)
    requires var now := Run(k, s, ops);
             && Joined(k, Listed(now, tenant, reached), all, served)
             && Joined(k, FreshList(tenant, RulesOf(now, tenant)), all, direct)
             && Assembled(k, Listed(now, tenant, reached), all, servedRules)
             && Assembled(k, FreshList(tenant, RulesOf(now, tenant)), all, directRules)
    ensures served == direct && servedRules == directRules
    ensures Evaluate(lib, servedRules, ctx) == Evaluate(lib, directRules, ctx)
  {
    RunKeepsCoherence(k, s, ops, tenant);
    var now := Run(k, s, ops);
    if Hits(now, tenant, reached) {
      FormsJoinAlike(k, tenant, RulesOf(now, tenant), all, direct, served, directRules, servedRules);
    } else {
      assert forall i :: 0 <= i < |served| ==> served[i] == direct[i];
      assert forall i :: 0 <= i < |servedRules| ==> servedRules[i] == directRules[i];
    }
  }

  /** An operation on one tenant leaves the rows and the cache entry of every other alone. */
  lemma TenantsAreSeparate(k: Codec, s: State, op: Operation, other: Tenant)
    requires op.ReplaceConditions? || op.tenant != other
    ensures RulesOf(Step(k, s, op), other) == RulesOf(s, other)
    ensures other in Step(k, s, op).cache <==> other in s.cache
    ensures other in s.cache ==> Step(k, s, op).cache[other] == s.cache[other]
  {
  }

  /** The operations of a history that concern the tenant. */
  function OwnOperations(ops: seq<Operation>, tenant: Tenant): seq<Operation> {
    if ops == [] then []
    else
      var before, last := OwnOperations(ops[..|ops| - 1], tenant), ops[|ops| - 1];
      if last.ReplaceConditions? || last.tenant != tenant then before else before + [last]
  }

  /** The tenant's rows are the same in both states, and so is its cache entry. */
  ghost predicate SameFor(a: State, b: State, tenant: Tenant) {
    && RulesOf(a, tenant) == RulesOf(b, tenant)
    && (tenant in a.cache <==> tenant in b.cache)
    && (tenant in a.cache ==> a.cache[tenant] == b.cache[tenant])
  }

  /** What an operation makes of its tenant's rows and entry depends on nothing else. */
  lemma OwnStep(k: Codec, a: State, b: State, op: Operation)
    requires !op.ReplaceConditions? && SameFor(a, b, op.tenant)
    ensures SameFor(Step(k, a, op), Step(k, b, op), op.tenant)
  {
  }

  lemma OwnRun(k: Codec, s: State, own: seq<Operation>, last: Operation)
    ensures Run(k, s, own + [last]) == Step(k, Run(k, s, own), last)
  {
    assert (own + [last])[..|own|] == own;
  }

  /** So whatever other tenants did, and however it interleaved, a tenant has what its own operations left. */
  lemma {:induction false} OthersNeverShow(k: Codec, s: State, ops: seq<Operation>, tenant: Tenant)
    ensures SameFor(Run(k, s, ops), Run(k, s, OwnOperations(ops, tenant)), tenant)
  {
    if ops != [] {
      var before, last := ops[..|ops| - 1], ops[|ops| - 1];
      var own := OwnOperations(before, tenant);
      OthersNeverShow(k, s, before, tenant);
      if last.ReplaceConditions? || last.tenant != tenant {
        TenantsAreSeparate(k, Run(k, s, before), last, tenant);
      } else {
        OwnRun(k, s, own, last);
        OwnStep(k, Run(k, s, before), Run(k, s, own), last);
      }
    }
  }

  /** And reads what it would read with no other tenant there. */
  lemma ReadsItsOwn(k: Codec, s: State, ops: seq<Operation>, tenant: Tenant, reached: bool)
    ensures Listed(Run(k, s, ops), tenant, reached) == Listed(Run(k, s, OwnOperations(ops, tenant)), tenant, reached)
  {
    OthersNeverShow(k, s, ops, tenant);
  }

  /** The condition is needed: one invalidation lost to Redis, and the next read shows the old name. */
  lemma LostInvalidationIsStale(k: Codec, tenant: Tenant, rule: StoredRule, name: string)
    requires name != rule.name && rule.isActive
    ensures var ops := [List(tenant, true, true, true),
                        Update(tenant, rule.id, name, rule.priority, rule.isDefault, rule.target, rule.updated, false)];
            var now := Run(k, State(map[tenant := [rule]], [], map[]), ops);
            && Listed(now, tenant, true) != []
            && Listed(now, tenant, true)[0].name == rule.name
            && RulesOf(now, tenant) != []
            && RulesOf(now, tenant)[0].name == name
  {
    var s0 := State(map[tenant := [rule]], [], map[]);
    var read, write := List(tenant, true, true, true),
        Update(tenant, rule.id, name, rule.priority, rule.isDefault, rule.target, rule.updated, false);
    assert [rule][..0] == [];
    assert Ordered([rule]) == [rule];
    var rows := FreshList(tenant, [rule]);
    assert rows == [FreshRow(tenant, rule)];
    var s1 := Step(k, s0, read);
    assert s1.cache[tenant] == Decodes(AllThroughJson(k, rows));
    assert AllThroughJson(k, rows)[0] == ThroughJson(k, rows[0]);
    var s2 := Step(k, s1, write);
    assert KeysHold(Updated([rule], rule.id, name, rule.priority, rule.isDefault, rule.target, rule.updated));
    assert [read, write][..1] == [read] && [read][..0] == [];
    assert Run(k, s0, []) == s0;
    assert Run(k, s0, [read]) == s1;
    assert Run(k, s0, [read, write]) == s2;
  }

  // ---------------------------------------------------------------------------
  // The join that does not normalise ids
  // ---------------------------------------------------------------------------

  /** What a dictionary keyed by the conditions' own ids holds for a row's id, in whatever form the row carries it. */
  function RawConditions(all: seq<StoredCondition>, id: Cell): seq<StoredCondition> {
    if all == [] then []
    else
      var before, last := RawConditions(all[..|all| - 1], id), all[|all| - 1];
      if Native(last.ruleId) == id then before + [last] else before
  }

  ghost predicate RawJoined(k: Codec, rows: seq<Row>, all: seq<StoredCondition>, out: seq<RuleResponse>) {
    |out| == |rows| && forall i :: 0 <= i < |rows| ==> out[i] == Response(k, rows[i], RawConditions(all, rows[i].id))
  }

  ghost predicate RawAssembled(k: Codec, rows: seq<Row>, all: seq<StoredCondition>, out: seq<Rule>) {
    |out| == |rows| && forall i :: 0 <= i < |rows| ==> out[i] == EngineRule(k, rows[i], RawConditions(all, rows[i].id))
  }

  /** The dictionary both of its joins build: native keys, filled one condition at a time. */
  method GroupByNativeId(all: seq<StoredCondition>) returns (groups: map<Cell, seq<StoredCondition>>)
    ensures forall id :: RawConditions(all, id) == if id in groups then groups[id] else []
  {
    groups := map[];
    for i := 0 to |all|
      invariant forall id :: RawConditions(all[..i], id) == if id in groups then groups[id] else []
    {
      var c := all[i];
      var key := Native(c.ruleId);
      assert all[..i + 1][..i] == all[..i];
      groups := groups[key := (if key in groups then groups[key] else []) + [c]];
    }
    assert all[..|all|] == all;
  }

  /** The joins as they are written: responses for the listing, engine rules for the simulation. */
  method RawJoin(k: Codec, rows: seq<Row>, all: seq<StoredCondition>) returns (out: seq<RuleResponse>, rules: seq<Rule>)
    ensures RawJoined(k, rows, all, out) && RawAssembled(k, rows, all, rules)
  {
    var groups := GroupByNativeId(all);
    out, rules := [], [];
    for i := 0 to |rows|
      invariant RawJoined(k, rows[..i], all, out) && RawAssembled(k, rows[..i], all, rules)
    {
      var found := if rows[i].id in groups then groups[rows[i].id] else [];
      out, rules := out + [Response(k, rows[i], found)], rules + [EngineRule(k, rows[i], found)];
    }
    assert rows[..|rows|] == rows;
  }

  lemma {:induction false} NativeFindsAll(all: seq<StoredCondition>, id: nat)
    ensures RawConditions(all, Native(id)) == WithRuleId(all, id)
  {
    if all != [] {
      NativeFindsAll(all[..|all| - 1], id);
    }
  }

  lemma {:induction false} SpelledFindsNothing(all: seq<StoredCondition>, text: string)
    ensures RawConditions(all, Spelled(text)) == []
  {
    if all != [] {
      SpelledFindsNothing(all[..|all| - 1], text);
    }
  }

  /** Cached rows carry their ids as text, whatever became of invalidations. */
  ghost predicate CachedAsText(s: State) {
    forall t :: t in s.cache && s.cache[t].Decodes? ==> AllText(s.cache[t].value)
  }

  ghost predicate AllText(rows: seq<Row>) {
    forall i :: 0 <= i < |rows| ==> rows[i].id.Spelled?
  }

  lemma {:induction false} AlwaysCachedAsText(k: Codec, s: State, ops: seq<Operation>)
    requires CachedAsText(s)
    ensures CachedAsText(Run(k, s, ops))
  {
    if ops != [] {
      AlwaysCachedAsText(k, s, ops[..|ops| - 1]);
      StepCachesText(k, Run(k, s, ops[..|ops| - 1]), ops[|ops| - 1]);
    }
  }

  lemma StepCachesText(k: Codec, s: State, op: Operation)
    requires CachedAsText(s)
    ensures CachedAsText(Step(k, s, op))
  {
    var s' := Step(k, s, op);
    forall t | t in s'.cache && s'.cache[t].Decodes? ensures AllText(s'.cache[t].value) {
      if t in s.cache && s'.cache[t] == s.cache[t] {
        assert AllText(s.cache[t].value);
      }
    }
  }

  /** No rule of the listing has conditions. */
  ghost predicate Unconditional(k: Codec, rows: seq<Row>, all: seq<StoredCondition>) {
    forall i :: 0 <= i < |rows| ==> ConditionsFor(k, all, SpellId(k, rows[i].id)) == []
  }

  /**
   After any history whatever: the join without normalisation agrees with the one that normalises, in responses
   and in engine rules alike, exactly when the read missed the cache or no listed rule has a condition.
   */
  lemma RawJoinAgreesExactly(k: Codec, s: State, ops: seq<Operation>, tenant: Tenant, reached: bool,
                             all: seq<StoredCondition>,
                             served: seq<RuleResponse>, raw: seq<RuleResponse>, servedRules: seq<Rule>,
                                 rawRules: seq<Rule>)
    requires RoundTrips(k) && CachedAsText(s)
    requires var rows := Listed(Run(k, s, ops), tenant, reached);
             && Joined(k, rows, all, served) && RawJoined(k, rows, all, raw)
             && Assembled(k, rows, all, servedRules) && RawAssembled(k, rows, all, rawRules)
    ensures var now := Run(k, s, ops);
            var agree := !Hits(now, tenant, reached) || Unconditional(k, Listed(now, tenant, reached), all);
            (raw == served <==> agree) && (rawRules == servedRules <==> agree)
  {
    var now := Run(k, s, ops);
    var rows := Listed(now, tenant, reached);
    AlwaysCachedAsText(k, s, ops);
    if Hits(now, tenant, reached) {
      assert AllText(rows);
      TextRowsAgreeExactly(k, rows, all, served, raw, servedRules, rawRules);
    } else {
      forall i | 0 <= i < |rows| ensures raw[i] == served[i] && rawRules[i] == servedRules[i] {
        var id := Ordered(RulesOf(now, tenant))[i].id;
        NativeFindsAll(all, id);
        JoinIsById(k, all, id);
      }
    }
  }

  lemma TextRowsAgreeExactly(k: Codec, rows: seq<Row>, all: seq<StoredCondition>, served: seq<RuleResponse>,
                             raw: seq<RuleResponse>,
                             servedRules: seq<Rule>, rawRules: seq<Rule>)
    requires AllText(rows)
    requires Joined(k, rows, all, served) && RawJoined(k, rows, all, raw)
    requires Assembled(k, rows, all, servedRules) && RawAssembled(k, rows, all, rawRules)
    ensures (raw == served <==> Unconditional(k, rows, all)) &&
            (rawRules == servedRules <==> Unconditional(k, rows, all))
  {
    forall i | 0 <= i < |rows|
      ensures raw[i] == served[i] <==> ConditionsFor(k, all, SpellId(k, rows[i].id)) == []
      ensures rawRules[i] == servedRules[i] <==> ConditionsFor(k, all, SpellId(k, rows[i].id)) == []
    {
      var found := ConditionsFor(k, all, SpellId(k, rows[i].id));
      SpelledFindsNothing(all, rows[i].id.text);
      assert raw[i].conditions == [] && served[i].conditions == found;
      assert |rawRules[i].conditions| == 0 && |servedRules[i].conditions| == |found|;
    }
  }

  // ---------------------------------------------------------------------------
  // A history on which it changes the engine's answer
  // ---------------------------------------------------------------------------

  function OnlyForX(): Condition {
    Condition("text", "user_text", "eq", One(Str("x")), false)
  }

  function OneRule(name: string): StoredRule {
    StoredRule(1, name, 0, true, false, "m", 0, 0)
  }

  function OneRuleState(tenant: Tenant, name: string): State {
    State(map[tenant := [OneRule(name)]], [StoredCondition(1, 1, OnlyForX())], map[])
  }

  lemma ReadFillsCache(k: Codec, tenant: Tenant, name: string)
    ensures var now := Run(k, OneRuleState(tenant, name), [List(tenant, true, true, true)]);
            && Hits(now, tenant, true) && now.conditions == [StoredCondition(1, 1, OnlyForX())]
            && Listed(now, tenant, true) == [ThroughJson(k, FreshRow(tenant, OneRule(name)))]
  {
    var s, read := OneRuleState(tenant, name), List(tenant, true, true, true);
    assert [OneRule(name)][..0] == [] && Ordered([OneRule(name)]) == [OneRule(name)];
    var rows := FreshList(tenant, [OneRule(name)]);
    assert rows == [FreshRow(tenant, OneRule(name))];
    assert AllThroughJson(k, rows) == [ThroughJson(k, rows[0])];
    assert [read][..0] == [] && Run(k, s, []) == s;
    assert Run(k, s, [read]) == Step(k, s, read);
  }

  /** One read is enough: the second simulation matches a rule whose condition fails. */
  lemma SecondSimulationMatches(k: Codec, tenant: Tenant, name: string, lib: Library, ctx: Context, served: seq<Rule>,
                                raw: seq<Rule>)
    requires RoundTrips(k) && ctx.userText != "x"
    requires var now := Run(k, OneRuleState(tenant, name), [List(tenant, true, true, true)]);
             && Assembled(k, Listed(now, tenant, true), now.conditions, served)
             && RawAssembled(k, Listed(now, tenant, true), now.conditions, raw)
    ensures Evaluate(lib, served, ctx).None?
    ensures Evaluate(lib, raw, ctx).Some? && Evaluate(lib, raw, ctx).value.target == "m"
  {
    ReadFillsCache(k, tenant, name);
    var all, row := [StoredCondition(1, 1, OnlyForX())], ThroughJson(k, FreshRow(tenant, OneRule(name)));
    JoinIsById(k, all, 1);
    SpelledFindsNothing(all, k.spellId(1));
    assert all[..0] == [] && WithRuleId(all, 1) == all;
    assert served == [EngineRule(k, row, all)] && raw == [EngineRule(k, row, [])];
    assert served[0].conditions[0] == OnlyForX();
    LoneRule(lib, served[0], ctx);
    LoneRule(lib, raw[0], ctx);
    OnlyForXFails(lib, ctx);
  }

  lemma OnlyForXFails(lib: Library, ctx: Context)
    requires ctx.userText != "x"
    ensures !Holds(lib, OnlyForX(), ctx)
  {
    assert FieldValue("user_text", ctx) == One(Str(ctx.userText));
  }

  lemma LoneRule(lib: Library, rule: Rule, ctx: Context)
    requires Candidate(rule)
    ensures Evaluate(lib, [rule], ctx).Some? <==> AllHold(lib, rule.conditions, ctx)
    ensures Evaluate(lib, [rule], ctx).Some? ==> Evaluate(lib, [rule], ctx).value.target == rule.target
  {
    EvaluateMeaning(lib, [rule], ctx);
    assert rule in [rule];
    assert forall q :: q in [rule] ==> q == rule;
  }
}
