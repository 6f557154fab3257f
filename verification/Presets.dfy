/** Applying a preset template: one transaction, fresh priorities, and no change to what already matched. */
module Presets {
  import opened Prelude
  import opened Conditions
  import opened RuleEngine

  datatype PresetCondition = PresetCondition(kind: string, operator: string, field: string, value: Value)

  datatype PresetRule = PresetRule(name: string, level: string, isDefault: bool, conditions: seq<PresetCondition>)

  datatype Intent = Intent(name: string, description: string, threshold: real, examples: seq<string>)

  datatype PresetIntent = PresetIntent(name: string, description: string, examples: seq<string>)

  datatype Preset = Preset(name: string, intents: seq<PresetIntent>, rules: seq<PresetRule>)

  datatype ModelMapping = ModelMapping(economy: string, balanced: string, premium: string)

  datatype PresetError =
    | UnknownPreset
    | NotRegistered(model: string)
    | AlreadyApplied
    | Rejected // the database refused a row; the transaction is rolled back

  datatype Outcome = Applied(rulesCreated: nat, intentsCreated: nat, examplesCreated: nat) | Refused(error: PresetError)

  /** The largest value of the INTEGER column that holds priorities. */
  const MAX_PRIORITY := 0x7FFF_FFFF

  const DEFAULT_THRESHOLD := 0.7

  /** An unknown level falls back to the balanced model. */
  function Resolve(mapping: ModelMapping, level: string): string {
    match level
    case "economy" => mapping.economy
    case "premium" => mapping.premium
    case _ => mapping.balanced
  }

  // ---------------------------------------------------------------------------
  // The rows a preset adds
  // ---------------------------------------------------------------------------

  /** `COALESCE(MAX(priority), -1)`. */
  function TopPriority(rules: seq<Rule>): int {
    if rules == [] then -1
    else if |rules| == 1 then rules[0].priority
    else Max(TopPriority(rules[..|rules| - 1]), rules[|rules| - 1].priority)
  }

  function Instantiate(conditions: seq<PresetCondition>): seq<Condition> {
    seq(|conditions|, i requires 0 <= i < |conditions| =>
      Condition(conditions[i].kind, conditions[i].field, conditions[i].operator, conditions[i].value, false))
  }

  function AddedRule(template: PresetRule, mapping: ModelMapping, priority: int, id: string): Rule {
    Rule(id, template.name, priority, true, template.isDefault, Resolve(mapping, template.level),
         Instantiate(template.conditions))
  }

  /** `ids(i)` is the key the database generates for the i-th inserted rule. */
  function RowsFor(templates: seq<PresetRule>, mapping: ModelMapping, base: int, ids: nat -> string): (rows: seq<Rule>)
    ensures |rows| == |templates|
  {
    if templates == [] then []
    else
      var last := |templates| - 1;
      RowsFor(templates[..last], mapping, base, ids) + [AddedRule(templates[last], mapping, base + last, ids(last))]
  }

  lemma {:induction false} RowsAre(templates: seq<PresetRule>, mapping: ModelMapping, base: int, ids: nat -> string)
    ensures forall i :: 0 <= i < |templates| ==>
            RowsFor(templates, mapping, base, ids)[i] == AddedRule(templates[i], mapping, base + i, ids(i))
  {
    if templates != [] {
      RowsAre(templates[..|templates| - 1], mapping, base, ids);
    }
  }

  function AddedRules(preset: Preset, mapping: ModelMapping, base: int, ids: nat -> string): seq<Rule> {
    RowsFor(preset.rules, mapping, base, ids)
  }

  /** Each added rule is its template's, at its level's model, active, with conditions that are not negated. */
  lemma AddedRulesAre(preset: Preset, mapping: ModelMapping, base: int, ids: nat -> string)
    ensures var added := AddedRules(preset, mapping, base, ids);
            && |added| == |preset.rules|
            && forall i :: 0 <= i < |added| ==>
                 && var template := preset.rules[i];
                 && added[i].name == template.name && added[i].isDefault == template.isDefault && added[i].isActive
                 && (template.level == "economy" ==> added[i].target == mapping.economy)
                 && (template.level == "premium" ==> added[i].target == mapping.premium)
                 && (template.level !in {"economy", "premium"} ==> added[i].target == mapping.balanced)
                 && |added[i].conditions| == |template.conditions|
                 && forall k :: 0 <= k < |template.conditions| ==>
                      Copies(added[i].conditions[k], template.conditions[k])
  {
    RowsAre(preset.rules, mapping, base, ids);
  }

  predicate Copies(c: Condition, template: PresetCondition) {
    && c.kind == template.kind && c.field == template.field && c.operator == template.operator
    && c.value == template.value && !c.negate
  }

  function AddedIntents(preset: Preset): seq<Intent> {
    seq(|preset.intents|, i requires 0 <= i < |preset.intents| =>
      Intent(preset.intents[i].name, preset.intents[i].description, DEFAULT_THRESHOLD, preset.intents[i].examples))
  }

  /** Each added intent is the preset's, with all its examples and the default threshold of seven tenths. */
  lemma AddedIntentsAre(preset: Preset)
    ensures |AddedIntents(preset)| == |preset.intents|
    ensures forall i :: 0 <= i < |preset.intents| ==>
              && var added, template := AddedIntents(preset)[i], preset.intents[i];
              && added.name == template.name && added.description == template.description
              && added.examples == template.examples && 10.0 * added.threshold == 7.0
  {
  }

  function ExampleCount(intents: seq<PresetIntent>): nat {
    if intents == [] then 0 else ExampleCount(intents[..|intents| - 1]) + |intents[|intents| - 1].examples|
  }

  // ---------------------------------------------------------------------------
  // When a preset is refused
  // ---------------------------------------------------------------------------

  predicate Registered(preset: Preset, mapping: ModelMapping, models: set<string>) {
    forall i :: 0 <= i < |preset.rules| ==> Resolve(mapping, preset.rules[i].level) in models
  }

  predicate SharesIntent(preset: Preset, intents: seq<Intent>) {
    exists i, k :: 0 <= i < |preset.intents| && 0 <= k < |intents| && preset.intents[i].name == intents[k].name
  }

  ghost predicate DistinctRuleNames(rules: seq<Rule>) {
    forall i, j :: 0 <= i < j < |rules| ==> rules[i].name != rules[j].name
  }

  ghost predicate DistinctIntentNames(intents: seq<Intent>) {
    forall i, j :: 0 <= i < j < |intents| ==> intents[i].name != intents[j].name
  }

  ghost predicate InRange(rules: seq<Rule>) {
    forall i :: 0 <= i < |rules| ==> rules[i].priority <= MAX_PRIORITY
  }

  ghost predicate Accepts(rules: seq<Rule>) {
    DistinctRuleNames(rules) && InRange(rules)
  }

  /** The rows of one tenant, with the constraints the schema keeps on them. */
  class TenantRules {
    var rules: seq<Rule>
    var intents: seq<Intent>

    ghost predicate Valid()
      reads this
    {
      Accepts(rules) && DistinctPriorities(rules) && DistinctIntentNames(intents)
    }

    constructor ()
      ensures Valid() && rules == [] && intents == []
    {
      rules, intents := [], [];
    }

    /**
     Applies a preset. It succeeds just when every target model is registered, no intent of the preset
     exists, and the resulting rows keep the constraints; it then appends the preset's rows. Otherwise
     nothing changes, not even when a row in the middle of the transaction is refused.
     */
    method ApplyPreset(preset: Option<Preset>, mapping: ModelMapping, models: set<string>, ids: nat -> string)
      returns (outcome: Outcome)
      requires Valid()
      modifies this
      ensures Valid()
      ensures outcome.Refused? ==> rules == old(rules) && intents == old(intents)
      ensures preset.None? <==> outcome == Refused(UnknownPreset)
      ensures preset.Some? ==>
                var p := preset.value;
                var allRules := old(rules) + AddedRules(p, mapping, TopPriority(old(rules)) + 1, ids);
                var allIntents := old(intents) + AddedIntents(p);
                && (outcome.Refused? && outcome.error.NotRegistered? <==> !Registered(p, mapping, models))
                && (outcome == Refused(AlreadyApplied) <==>
                    Registered(p, mapping, models) && SharesIntent(p, old(intents)))
                && (outcome.Applied? <==>
                    && Registered(p, mapping, models) && !SharesIntent(p, old(intents))
                    && DistinctIntentNames(allIntents) && Accepts(allRules))
                && (outcome.Applied? ==>
                      && rules == allRules && intents == allIntents
                      && Behind(old(rules), AddedRules(p, mapping, TopPriority(old(rules)) + 1, ids))
                      && outcome == Applied(|p.rules|, |p.intents|, ExampleCount(p.intents)))
    {
      if preset.None? {
        return Refused(UnknownPreset);
      }
      var p := preset.value;
      var missing := FirstUnregistered(p, mapping, models);
      if missing.Some? {
        return Refused(NotRegistered(missing.value));
      }
      if SharesIntent(p, intents) {
        return Refused(AlreadyApplied);
      }
      var examples := InsertRows(p, mapping, ids);
      outcome := if examples.Some? then Applied(|p.rules|, |p.intents|, examples.value) else Refused(Rejected);
    }

    /** The transaction: all rows of the preset, or none. */
    method InsertRows(p: Preset, mapping: ModelMapping, ids: nat -> string) returns (examples: Option<nat>)
      requires Valid()
      modifies this
      ensures Valid()
      ensures examples.None? ==> rules == old(rules) && intents == old(intents)
      ensures var added := AddedRules(p, mapping, TopPriority(old(rules)) + 1, ids);
              && (examples.Some? <==>
                  DistinctIntentNames(old(intents) + AddedIntents(p)) && Accepts(old(rules) + added))
              && (examples.Some? ==>
                    && rules == old(rules) + added && Behind(old(rules), added)
                    && intents == old(intents) + AddedIntents(p) && examples.value == ExampleCount(p.intents))
    {
      var newIntents, count := InsertIntents(p, intents);
      if newIntents.None? {
        return None;
      }
      var base := TopPriority(rules) + 1;
      ghost var added := AddedRules(p, mapping, base, ids);
      RowsAre(p.rules, mapping, base, ids);
      var newRules := InsertRules(p.rules, mapping, rules, base, ids, added);
      if newRules.None? {
        return None;
      }
      PresetGoesBehind(rules, p, mapping, ids);
      BehindKeepsUnique(rules, added);
      rules, intents := newRules.value, newIntents.value;
      examples := Some(count);
    }
  }

  method FirstUnregistered(preset: Preset, mapping: ModelMapping, models: set<string>) returns (missing: Option<string>)
    ensures missing.None? <==> Registered(preset, mapping, models)
    ensures missing.Some? ==> missing.value !in models
  {
    for i := 0 to |preset.rules|
      invariant forall k :: 0 <= k < i ==> Resolve(mapping, preset.rules[k].level) in models
    {
      var concrete := Resolve(mapping, preset.rules[i].level);
      if concrete !in models {
        return Some(concrete);
      }
    }
    missing := None;
  }

  /** The intent inserts; a repeated name breaks the unique constraint. */
  method InsertIntents(preset: Preset, intents: seq<Intent>) returns (result: Option<seq<Intent>>, examples: nat)
    requires DistinctIntentNames(intents)
    ensures result.Some? <==> DistinctIntentNames(intents + AddedIntents(preset))
    ensures result.Some? ==> result.value == intents + AddedIntents(preset) && examples == ExampleCount(preset.intents)
  {
    var rows := intents;
    examples := 0;
    ghost var all := intents + AddedIntents(preset);
    for i := 0 to |preset.intents|
      invariant rows == all[..|intents| + i] && DistinctIntentNames(rows)
      invariant examples == ExampleCount(preset.intents[..i])
    {
      var d := preset.intents[i];
      assert preset.intents[..i + 1][..i] == preset.intents[..i];
      var taken := exists k :: 0 <= k < |rows| && rows[k].name == d.name;
      if taken {
        var k :| 0 <= k < |rows| && rows[k].name == d.name;
        assert all[k].name == all[|intents| + i].name;
        return None, 0;
      }
      rows := rows + [Intent(d.name, d.description, DEFAULT_THRESHOLD, d.examples)];
      examples := examples + |d.examples|;
    }
    assert preset.intents[..|preset.intents|] == preset.intents;
    result := Some(rows);
  }

  /** One rule insert; a repeated name or a priority beyond the column's range is refused. */
  method InsertRule(rows: seq<Rule>, rule: Rule) returns (result: Option<seq<Rule>>)
    requires Accepts(rows)
    ensures result.Some? <==> Accepts(rows + [rule])
    ensures result.Some? ==> result.value == rows + [rule]
  {
    var all := rows + [rule];
    for k := 0 to |rows|
      invariant forall j :: 0 <= j < k ==> rows[j].name != rule.name
    {
      if rows[k].name == rule.name {
        assert all[k].name == all[|rows|].name;
        return None;
      }
    }
    if rule.priority > MAX_PRIORITY {
      assert all[|rows|].priority > MAX_PRIORITY;
      return None;
    }
    result := Some(all);
  }

  lemma NextRow(rules: seq<Rule>, n: nat)
    requires n < |rules|
    ensures rules[..n] + [rules[n]] == rules[..n + 1]
    ensures Accepts(rules) ==> Accepts(rules[..n] + [rules[n]])
  {
  }

  /** The rule inserts in template order, up to the first that is refused; `added` are the rows to come. */
  method InsertRules(templates: seq<PresetRule>, mapping: ModelMapping, rules: seq<Rule>, base: int, ids: nat -> string,
                     ghost added: seq<Rule>)
    returns (result: Option<seq<Rule>>)
    requires Accepts(rules) && |added| == |templates|
    requires forall i :: 0 <= i < |added| ==> added[i] == AddedRule(templates[i], mapping, base + i, ids(i))
    ensures result.Some? <==> Accepts(rules + added)
    ensures result.Some? ==> result.value == rules + added
  {
    var rows := rules;
    for i := 0 to |templates|
      invariant rows == (rules + added)[..|rules| + i] && Accepts(rows)
    {
      NextRow(rules + added, |rules| + i);
      var next := InsertRule(rows, AddedRule(templates[i], mapping, base + i, ids(i)));
      if next.None? {
        return None;
      }
      rows := next.value;
    }
    result := Some(rows);
  }

  // ---------------------------------------------------------------------------
  // Fresh priorities
  // ---------------------------------------------------------------------------

  lemma {:induction false} TopIsTop(rules: seq<Rule>)
    ensures forall i :: 0 <= i < |rules| ==> rules[i].priority <= TopPriority(rules)
    ensures rules != [] ==> exists i :: 0 <= i < |rules| && rules[i].priority == TopPriority(rules)
  {
    if |rules| == 1 {
      assert rules[0].priority == TopPriority(rules);
    } else if |rules| > 1 {
      var before := rules[..|rules| - 1];
      TopIsTop(before);
      var i :| 0 <= i < |before| && before[i].priority == TopPriority(before);
      assert rules[i] == before[i];
      forall k | 0 <= k < |rules| ensures rules[k].priority <= TopPriority(rules) {
        assert k < |before| ==> rules[k] == before[k];
      }
      assert rules[|rules| - 1].priority == TopPriority(rules) || rules[i].priority == TopPriority(rules);
    }
  }

  /** The added rules are in ascending order, after every existing one. */
  ghost predicate Behind(existing: seq<Rule>, added: seq<Rule>) {
    && StrictlyAscending(added)
    && forall i, k :: 0 <= i < |existing| && 0 <= k < |added| ==> existing[i].priority < added[k].priority
  }

  lemma PresetGoesBehind(existing: seq<Rule>, preset: Preset, mapping: ModelMapping, ids: nat -> string)
    ensures Behind(existing, AddedRules(preset, mapping, TopPriority(existing) + 1, ids))
  {
    TopIsTop(existing);
    RowsAre(preset.rules, mapping, TopPriority(existing) + 1, ids);
  }

  /** The first added priority follows the greatest existing one, or is zero. */
  ghost predicate Next(existing: seq<Rule>, added: seq<Rule>) {
    && (added != [] ==> if existing == [] then added[0].priority == 0
                        else exists i :: 0 <= i < |existing| && added[0].priority == existing[i].priority + 1)
    && (forall i :: 0 < i < |added| ==> added[i].priority == added[i - 1].priority + 1)
  }

  /** And no gap is left. */
  lemma PresetLeavesNoGap(existing: seq<Rule>, preset: Preset, mapping: ModelMapping, ids: nat -> string)
    ensures Next(existing, AddedRules(preset, mapping, TopPriority(existing) + 1, ids))
  {
    TopIsTop(existing);
    RowsAre(preset.rules, mapping, TopPriority(existing) + 1, ids);
  }

  /** So unique priorities stay unique, and only they do. */
  lemma BehindKeepsUnique(existing: seq<Rule>, added: seq<Rule>)
    requires Behind(existing, added)
    ensures DistinctPriorities(existing + added) <==> DistinctPriorities(existing)
  {
    var all := existing + added;
    if DistinctPriorities(all) {
      forall i, j | 0 <= i < j < |existing| ensures existing[i].priority != existing[j].priority {
        assert all[i] == existing[i] && all[j] == existing[j];
      }
    }
  }

  // ---------------------------------------------------------------------------
  // Conservative extension
  // ---------------------------------------------------------------------------

  /** Rules that all come later in priority sort behind, in their own order. */
  lemma {:induction false} SortAppends(first: seq<Rule>, second: seq<Rule>)
    requires Behind(first, second)
    ensures ByPriority(first + second) == ByPriority(first) + second
  {
    if second == [] {
      assert first + second == first && ByPriority(first) + second == ByPriority(first);
    } else {
      var before, last := second[..|second| - 1], second[|second| - 1];
      SortAppends(first, before);
      SortAppendsOne(first, before, last);
      assert before + [last] == second;
    }
  }

  lemma SortAppendsOne(first: seq<Rule>, before: seq<Rule>, last: Rule)
    requires ByPriority(first + before) == ByPriority(first) + before
    requires forall r :: r in first || r in before ==> r.priority <= last.priority
    ensures ByPriority(first + (before + [last])) == ByPriority(first) + (before + [last])
  {
    assert first + (before + [last]) == (first + before) + [last];
    SortSnoc(first + before, last);
    forall r | r in ByPriority(first) + before ensures r.priority <= last.priority {
      SortMembers(first, r);
    }
    InsertLast(last, ByPriority(first) + before);
    assert ByPriority(first) + before + [last] == ByPriority(first) + (before + [last]);
  }

  lemma SortSnoc(rules: seq<Rule>, last: Rule)
    ensures ByPriority(rules + [last]) == Insert(last, ByPriority(rules))
  {
    assert (rules + [last])[..|rules|] == rules;
  }

  lemma InsertLast(rule: Rule, sorted: seq<Rule>)
    requires forall r :: r in sorted ==> r.priority <= rule.priority
    ensures Insert(rule, sorted) == sorted + [rule]
  {
    if sorted != [] {
      assert sorted[|sorted| - 1] in sorted;
    }
  }

  lemma {:induction false} ScanContinues(lib: Library, first: seq<Rule>, second: seq<Rule>, ctx: Context,
                                         trace: seq<TraceEntry>, default: Option<Rule>)
    requires NoMatch(lib, first, ctx)
    ensures Scan(lib, first + second, ctx, trace, default) ==
            Scan(lib, second, ctx, trace + Entries(lib, Candidates(first), ctx), LastFallback(first, default))
  {
    if first == [] {
      assert first + second == second;
      assert trace + Entries(lib, Candidates(first), ctx) == trace;
    } else {
      var rest := first[1..];
      assert (first + second)[1..] == rest + second;
      assert forall i :: 0 <= i < |rest| ==> rest[i] == first[i + 1];
      ScanContinues(lib, rest, second, ctx,
                    if Candidate(first[0]) then trace + [EntryFor(lib, first[0], ctx)] else trace,
                    if Fallback(first[0]) then Some(first[0]) else default);
      EntriesStep(lib, first, ctx, trace);
    }
  }

  lemma FirstMatchStays(lib: Library, first: seq<Rule>, second: seq<Rule>, ctx: Context, k: int)
    requires FirstMatchAt(lib, first, ctx, k)
    ensures Scan(lib, first + second, ctx, [], None) == Scan(lib, first, ctx, [], None)
  {
    assert forall i :: 0 <= i <= k ==> (first + second)[i] == first[i];
    ScanFindsFirst(lib, first, ctx, [], None, k);
    ScanFindsFirst(lib, first + second, ctx, [], None, k);
    assert (first + second)[..k + 1] == first[..k + 1];
  }

  /** What becomes of a context no old rule matches, given the old outcome and the old trace. */
  ghost predicate FallsTo(lib: Library, added: seq<Rule>, ctx: Context, tried: seq<TraceEntry>,
                          before: Option<RuleMatch>, after: Option<RuleMatch>)
  {
    && (forall k :: FirstMatchAt(lib, added, ctx, k) ==>
          after == Some(RuleMatch(added[k], added[k].target, tried + Entries(lib, Candidates(added[..k + 1]), ctx))))
    && (NoMatch(lib, added, ctx) ==>
          && (forall k :: LastFallbackAt(added, k) ==> after.Some? && after.value.rule == added[k])
          && (NoFallback(added) && before.Some? ==> after.Some? && after.value.rule == before.value.rule)
          && (NoFallback(added) && before.None? ==> after.None?)
          && (after.Some? ==> after.value.trace == tried + Entries(lib, Candidates(added), ctx)))
  }

  lemma FallsThrough(lib: Library, sorted: seq<Rule>, added: seq<Rule>, ctx: Context)
    requires NoMatch(lib, sorted, ctx)
    ensures FallsTo(lib, added, ctx, Entries(lib, Candidates(sorted), ctx),
                    Scan(lib, sorted, ctx, [], None), Scan(lib, sorted + added, ctx, [], None))
  {
    var tried, default := Entries(lib, Candidates(sorted), ctx), LastFallback(sorted, None);
    ScanContinues(lib, sorted, added, ctx, [], None);
    assert [] + tried == tried;
    ScanFallsBack(lib, sorted, ctx, [], None);
    forall k | FirstMatchAt(lib, added, ctx, k)
      ensures Scan(lib, added, ctx, tried, default) ==
              Some(RuleMatch(added[k], added[k].target, tried + Entries(lib, Candidates(added[..k + 1]), ctx)))
    {
      ScanFindsFirst(lib, added, ctx, tried, default, k);
    }
    if NoMatch(lib, added, ctx) {
      ScanFallsBack(lib, added, ctx, tried, default);
      LastFallbackMeaning(added, default);
    }
  }

  /**
   In any fixed context, with rules such as a preset's behind the existing ones: where a non-default rule
   matched, rule, target and trace stay the same. Otherwise the added rules are tried in their order after
   all old candidates, and the last default among them, if there is one, replaces the old fallback.
   */
  lemma ConservativeExtension(lib: Library, existing: seq<Rule>, added: seq<Rule>, ctx: Context)
    requires Behind(existing, added)
    ensures AnyMatch(lib, existing, ctx) ==> Evaluate(lib, existing + added, ctx) == Evaluate(lib, existing, ctx)
    ensures !AnyMatch(lib, existing, ctx) ==>
              FallsTo(lib, added, ctx, Entries(lib, Candidates(ByPriority(existing)), ctx),
                      Evaluate(lib, existing, ctx), Evaluate(lib, existing + added, ctx))
  {
    var sorted := ByPriority(existing);
    SortAppends(existing, added);
    NoMatchCarriesOver(lib, existing, ctx);
    var k := FirstMatchExists(lib, sorted, ctx);
    if k >= 0 {
      FirstMatchStays(lib, sorted, added, ctx, k);
    } else {
      FallsThrough(lib, sorted, added, ctx);
    }
  }

  /** Once applied, a preset with at least one intent or rule cannot be applied to the same rows again. */
  lemma CannotApplyTwice(preset: Preset, mapping: ModelMapping, rules: seq<Rule>, intents: seq<Intent>,
                         ids: nat -> string, again: nat -> string)
    requires preset.intents != [] || preset.rules != []
    ensures var allRules := rules + AddedRules(preset, mapping, TopPriority(rules) + 1, ids);
            var allIntents := intents + AddedIntents(preset);
            SharesIntent(preset, allIntents) ||
            !DistinctRuleNames(allRules + AddedRules(preset, mapping, TopPriority(allRules) + 1, again))
  {
    var allRules := rules + AddedRules(preset, mapping, TopPriority(rules) + 1, ids);
    var allIntents := intents + AddedIntents(preset);
    RowsAre(preset.rules, mapping, TopPriority(rules) + 1, ids);
    RowsAre(preset.rules, mapping, TopPriority(allRules) + 1, again);
    if preset.intents != [] {
      assert allIntents[|intents|].name == preset.intents[0].name;
    } else {
      var twice := allRules + AddedRules(preset, mapping, TopPriority(allRules) + 1, again);
      assert twice[|rules|] == allRules[|rules|] && allRules[|rules|].name == preset.rules[0].name;
      assert twice[|allRules|].name == preset.rules[0].name;
    }
  }
}
