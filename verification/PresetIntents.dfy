/** What a preset's intents may change: the intent of a request, and with it what already matched. */
module PresetIntents {
  import opened Prelude
  import opened Messages
  import opened Conditions
  import opened RuleEngine
  import opened Presets

  // ---------------------------------------------------------------------------
  // Rules that do not read the intent
  // ---------------------------------------------------------------------------

  /** An active rule that is no default has a condition on the intent; of other rules no condition is looked at. */
  ghost predicate ReadsIntent(rules: seq<Rule>) {
    exists i, k :: 0 <= i < |rules| && 0 <= k < |rules[i].conditions| && Candidate(rules[i])
                   && rules[i].conditions[k].field == "classified_intent"
  }

  /** A condition on any other field holds or fails whatever the classified intent is. */
  lemma IntentIsOneField(lib: Library, c: Condition, ctx: Context, intent: Option<string>)
    requires c.field != "classified_intent"
    ensures Holds(lib, c, ctx.(classifiedIntent := intent)) == Holds(lib, c, ctx)
  {
    assert FieldValue(c.field, ctx.(classifiedIntent := intent)) == FieldValue(c.field, ctx);
  }

  lemma {:induction false} ScanIgnoresIntent(lib: Library, rules: seq<Rule>, ctx: Context, intent: Option<string>,
                                             trace: seq<TraceEntry>, default: Option<Rule>)
    requires !ReadsIntent(rules)
    ensures Scan(lib, rules, ctx.(classifiedIntent := intent), trace, default) == Scan(lib, rules, ctx, trace, default)
  {
    if rules != [] {
      var rest, other := rules[1..], ctx.(classifiedIntent := intent);
      assert forall i :: 0 <= i < |rest| ==> rest[i] == rules[i + 1];
      var conditions := rules[0].conditions;
      if Candidate(rules[0]) {
        forall k | 0 <= k < |conditions| ensures Holds(lib, conditions[k], other) == Holds(lib, conditions[k], ctx) {
          assert conditions[k].field != "classified_intent";
          IntentIsOneField(lib, conditions[k], ctx, intent);
        }
        FailsAlike(lib, conditions, ctx, other);
        assert EntryFor(lib, rules[0], other) == EntryFor(lib, rules[0], ctx);
      }
      assert Matches(lib, rules[0], other) == Matches(lib, rules[0], ctx);
      ScanIgnoresIntent(lib, rest, ctx, intent, trace, default);
      ScanIgnoresIntent(lib, rest, ctx, intent, trace, Some(rules[0]));
      ScanIgnoresIntent(lib, rest, ctx, intent, trace + [EntryFor(lib, rules[0], ctx)], default);
    }
  }

  lemma {:induction false} FailsAlike(lib: Library, conditions: seq<Condition>, ctx: Context, other: Context)
    requires forall k :: 0 <= k < |conditions| ==> Holds(lib, conditions[k], other) == Holds(lib, conditions[k], ctx)
    ensures FirstFailing(lib, conditions, other) == FirstFailing(lib, conditions, ctx)
  {
    if conditions != [] {
      FailsAlike(lib, conditions[1..], ctx, other);
    }
  }

  /** Rules that do not read the intent evaluate alike whatever it is. */
  lemma IntentFreeEvaluation(lib: Library, rules: seq<Rule>, ctx: Context, intent: Option<string>)
    requires !ReadsIntent(rules)
    ensures Evaluate(lib, rules, ctx.(classifiedIntent := intent)) == Evaluate(lib, rules, ctx)
    ensures AnyMatch(lib, rules, ctx) ==> AnyMatch(lib, rules, ctx.(classifiedIntent := intent))
  {
    SortKeepsIntentFree(rules);
    ScanIgnoresIntent(lib, ByPriority(rules), ctx, intent, [], None);
    if AnyMatch(lib, rules, ctx) {
      var q :| q in rules && Matches(lib, q, ctx);
      var i :| 0 <= i < |rules| && rules[i] == q;
      forall k | 0 <= k < |q.conditions| ensures Holds(lib, q.conditions[k], ctx.(classifiedIntent := intent)) {
        assert rules[i].conditions[k].field != "classified_intent";
        IntentIsOneField(lib, q.conditions[k], ctx, intent);
      }
      assert Matches(lib, q, ctx.(classifiedIntent := intent));
    }
  }

  /**
   Applying a preset may also change which intent a request is given. Rules that do not read the
   intent keep their matches even so, whatever the classifier said before and says after.
   */
  lemma ConservativeForRequests(lib: Library, existing: seq<Rule>, added: seq<Rule>, ctx: Context,
                                intent: Option<string>)
    requires Behind(existing, added) && !ReadsIntent(existing) && AnyMatch(lib, existing, ctx)
    ensures Evaluate(lib, existing + added, ctx.(classifiedIntent := intent)) == Evaluate(lib, existing, ctx)
  {
    IntentFreeEvaluation(lib, existing, ctx, intent);
    ConservativeExtension(lib, existing, added, ctx.(classifiedIntent := intent));
  }

  lemma SortKeepsIntentFree(rules: seq<Rule>)
    requires !ReadsIntent(rules)
    ensures !ReadsIntent(ByPriority(rules))
  {
    var sorted := ByPriority(rules);
    forall i, k | 0 <= i < |sorted| && 0 <= k < |sorted[i].conditions| && Candidate(sorted[i])
      ensures sorted[i].conditions[k].field != "classified_intent"
    {
      SortMembers(rules, sorted[i]);
      var j :| 0 <= j < |rules| && rules[j] == sorted[i];
      assert rules[j].conditions[k].field != "classified_intent";
    }
  }

  // ---------------------------------------------------------------------------
  // Which requests an application leaves alone
  // ---------------------------------------------------------------------------

  /**
   A preset about to be applied, with the intent classifier of the requests before it and of those after it,
   when the preset's intents and examples are in.
   */
  datatype Application = Application(preset: Preset, mapping: ModelMapping, ids: nat -> string,
                                     before: Option<Classifier>, after: Option<Classifier>)

  function Added(p: Application, existing: seq<Rule>): seq<Rule> {
    AddedRules(p.preset, p.mapping, TopPriority(existing) + 1, p.ids)
  }

  /** What a classifier, if there is one, makes of the user text. */
  function Said(classifier: Option<Classifier>, r: Request): Option<string> {
    if classifier.Some? then classifier.value(Text(UserText(MessagesOf(r)))) else None
  }

  /** Some rule of the preset has a condition of the kind that asks for an intent. */
  predicate AsksIntent(preset: Preset) {
    exists i :: 0 <= i < |preset.rules| && AsksInRule(preset.rules[i])
  }

  predicate AsksInRule(template: PresetRule) {
    exists k :: 0 <= k < |template.conditions| && template.conditions[k].kind == "intent"
  }

  function ContextFor(lib: Library, r: Request, clock: Clock, rules: seq<Rule>,
                      classifier: Option<Classifier>): Context
  {
    ContextOf(lib, r, clock, IntentFor(rules, classifier, Text(UserText(MessagesOf(r)))))
  }

  /** The preset's rows ask for an intent just if its templates do, wherever they are put. */
  lemma RowsAskAlike(p: Application, existing: seq<Rule>)
    ensures NeedsIntent(existing + Added(p, existing)) <==> NeedsIntent(existing) || AsksIntent(p.preset)
  {
    var added, templates := Added(p, existing), p.preset.rules;
    var all := existing + added;
    RowsAre(templates, p.mapping, TopPriority(existing) + 1, p.ids);
    if NeedsIntent(all) {
      var i, k :| && 0 <= i < |all| && all[i].isActive && 0 <= k < |all[i].conditions|
                  && all[i].conditions[k].kind == "intent";
      if i < |existing| {
        assert existing[i] == all[i];
      } else {
        assert templates[i - |existing|].conditions[k].kind == "intent";
      }
    }
    if NeedsIntent(existing) {
      var i, k :| && 0 <= i < |existing| && existing[i].isActive && 0 <= k < |existing[i].conditions|
                  && existing[i].conditions[k].kind == "intent";
      assert all[i] == existing[i];
    }
    if AsksIntent(p.preset) {
      var i :| 0 <= i < |templates| && AsksInRule(templates[i]);
      var k :| 0 <= k < |templates[i].conditions| && templates[i].conditions[k].kind == "intent";
      assert all[|existing| + i] == added[i] && added[i].conditions[k].kind == "intent";
    }
  }

  lemma IntentsOf(lib: Library, r: Request, clock: Clock, p: Application, existing: seq<Rule>)
    ensures ContextFor(lib, r, clock, existing, p.before).classifiedIntent ==
            if NeedsIntent(existing) then Said(p.before, r) else None
    ensures ContextFor(lib, r, clock, existing + Added(p, existing), p.after).classifiedIntent ==
            if NeedsIntent(existing) || AsksIntent(p.preset) then Said(p.after, r) else None
  {
    RowsAskAlike(p, existing);
  }

  /** Where an existing rule matched before, the result is still the same, down to the trace. */
  ghost predicate MatchKept(lib: Library, r: Request, clock: Clock, p: Application, existing: seq<Rule>) {
    AnyMatch(lib, existing, ContextFor(lib, r, clock, existing, p.before)) ==>
      SingleItem(lib, r, clock, existing + Added(p, existing), p.after) ==
          SingleItem(lib, r, clock, existing, p.before)
  }

  /** The classifier says of the request what it said before, and says nothing if the preset asks for intents. */
  predicate LeftAlone(p: Application, r: Request) {
    Said(p.before, r) == Said(p.after, r) && (AsksIntent(p.preset) ==> Said(p.after, r).None?)
  }

  lemma LeftAloneKeepsMatches(lib: Library, r: Request, clock: Clock, p: Application, existing: seq<Rule>)
    requires LeftAlone(p, r)
    ensures MatchKept(lib, r, clock, p, existing)
  {
    IntentsOf(lib, r, clock, p, existing);
    PresetGoesBehind(existing, p.preset, p.mapping, p.ids);
    var ctx := ContextFor(lib, r, clock, existing, p.before);
    assert ContextFor(lib, r, clock, existing + Added(p, existing), p.after) == ctx;
    ConservativeExtension(lib, existing, Added(p, existing), ctx);
  }

  /** A rule for the requests of one intent, or of none. */
  function Reader(name: string, kind: string, intent: Option<string>): Rule {
    Rule("1", name, 0, true, false, "m",
         [Condition(kind, "classified_intent", "eq", OptText(intent), false)])
  }

  lemma ReaderMatches(lib: Library, name: string, kind: string, intent: Option<string>, ctx: Context)
    ensures Matches(lib, Reader(name, kind, intent), ctx) <==> ctx.classifiedIntent == intent
  {
    var rule := Reader(name, kind, intent);
    assert FieldValue("classified_intent", ctx) == OptText(ctx.classifiedIntent);
    assert Holds(lib, rule.conditions[0], ctx) <==> ctx.classifiedIntent == intent;
    assert AllHold(lib, rule.conditions, ctx) <==> Holds(lib, rule.conditions[0], ctx);
  }

  lemma ReaderAsks(name: string, kind: string, intent: Option<string>)
    ensures NeedsIntent([Reader(name, kind, intent)]) <==> kind == "intent"
  {
    var rules := [Reader(name, kind, intent)];
    assert rules[0].conditions[0].kind == kind;
  }

  /** A lone reader of the intent before matches, and is not what a request with another intent gets. */
  lemma ReaderLosesMatch(lib: Library, r: Request, clock: Clock, p: Application, reader: Rule, kind: string)
    requires var first, next := ContextFor(lib, r, clock, [reader], p.before),
                             ContextFor(lib, r, clock, [reader] + Added(p, [reader]), p.after);
             && reader == Reader(reader.name, kind, first.classifiedIntent)
             && next.classifiedIntent != first.classifiedIntent
    ensures !MatchKept(lib, r, clock, p, [reader])
  {
    var first, next := ContextFor(lib, r, clock, [reader], p.before),
                    ContextFor(lib, r, clock, [reader] + Added(p, [reader]), p.after);
    ReaderMatches(lib, reader.name, kind, first.classifiedIntent, first);
    ReaderMatches(lib, reader.name, kind, first.classifiedIntent, next);
    assert reader in [reader];
    EvaluateMeaning(lib, [reader], first);
    EvaluateMeaning(lib, [reader] + Added(p, [reader]), next);
  }

  // ---------------------------------------------------------------------------
  // The exact condition
  // ---------------------------------------------------------------------------

  /** The preset can be applied to these rules of a tenant. */
  ghost predicate Applies(p: Application, existing: seq<Rule>) {
    DistinctPriorities(existing) && Accepts(existing + Added(p, existing))
  }

  /** The templates break no constraint among themselves. */
  ghost predicate WellFormed(preset: Preset) {
    && |preset.rules| <= MAX_PRIORITY
    && forall i, j :: 0 <= i < j < |preset.rules| ==> preset.rules[i].name != preset.rules[j].name
  }

  /** A name longer than every template's. */
  function FreshName(templates: seq<PresetRule>): (name: string)
    ensures forall i :: 0 <= i < |templates| ==> |templates[i].name| < |name|
  {
    if templates == [] then "x"
    else FreshName(templates[..|templates| - 1]) + templates[|templates| - 1].name + "x"
  }

  lemma AppliesBehindReader(p: Application, kind: string, intent: Option<string>)
    requires WellFormed(p.preset)
    ensures Applies(p, [Reader(FreshName(p.preset.rules), kind, intent)])
  {
    var reader := Reader(FreshName(p.preset.rules), kind, intent);
    RowsAre(p.preset.rules, p.mapping, 1, p.ids);
    assert TopPriority([reader]) == 0;
  }

  /**
   A preset leaves every match of a request alone, on all the rules it can be applied to, exactly when the
   classifier says of the request what it said before, and nothing at all if the preset asks for intents.
   */
  lemma MatchesKeptExactly(lib: Library, r: Request, clock: Clock, p: Application)
    requires WellFormed(p.preset)
    ensures (forall existing :: Applies(p, existing) ==> MatchKept(lib, r, clock, p, existing)) <==> LeftAlone(p, r)
  {
    if LeftAlone(p, r) {
      forall existing ensures MatchKept(lib, r, clock, p, existing) {
        LeftAloneKeepsMatches(lib, r, clock, p, existing);
      }
    } else {
      var kind := if Said(p.before, r) != Said(p.after, r) then "intent" else "custom";
      var reader := Reader(FreshName(p.preset.rules), kind, if kind == "intent" then Said(p.before, r) else None);
      ReaderAsks(reader.name, kind, if kind == "intent" then Said(p.before, r) else None);
      IntentsOf(lib, r, clock, p, [reader]);
      ReaderLosesMatch(lib, r, clock, p, reader, kind);
      AppliesBehindReader(p, kind, if kind == "intent" then Said(p.before, r) else None);
    }
  }

  function OneIntentPreset(intent: string): Preset {
    Preset("p", [PresetIntent(intent, "", [])],
           [PresetRule("by-intent", "premium", false,
                       [PresetCondition("intent", "eq", "classified_intent", One(Str(intent)))])])
  }

  const NO_INTENT := Reader("no-intent", "custom", None)

  lemma RowOfPreset(p: Application, intent: string)
    requires p.preset == OneIntentPreset(intent)
    ensures AsksIntent(p.preset) && Applies(p, [NO_INTENT])
    ensures Added(p, [NO_INTENT]) == [Reader("by-intent", "intent", Some(intent)).(id := p.ids(0), priority := 1,
                                                                                target := p.mapping.premium)]
  {
    RowsAre(p.preset.rules, p.mapping, 1, p.ids);
    assert p.preset.rules[0].conditions[0].kind == "intent" && AsksInRule(p.preset.rules[0]);
    assert TopPriority([NO_INTENT]) == 0;
    assert Instantiate(p.preset.rules[0].conditions) == Reader("by-intent", "intent", Some(intent)).conditions;
  }

  lemma PresetRuleWins(lib: Library, rules: seq<Rule>, ctx: Context, row: Rule, intent: string)
    requires row == Reader("by-intent", "intent", Some(intent)).(id := row.id, priority := 1, target := row.target)
    requires rules == [NO_INTENT] + [row] && ctx.classifiedIntent == Some(intent)
    ensures var m := Evaluate(lib, rules, ctx); m.Some? && m.value.rule == row && m.value.target == row.target
  {
    ReaderMatches(lib, "no-intent", "custom", None, ctx);
    ReaderMatches(lib, "by-intent", "intent", Some(intent), ctx);
    assert Matches(lib, row, ctx) && rules[1] == row && rules[0] == NO_INTENT;
    EvaluateMeaning(lib, rules, ctx);
  }

  /**
   It happens: no rule asks for an intent, so the rule for requests without one matches. The preset's rule
   asks for one, the classifier knows the preset's intent, and the request goes where the preset says.
   */
  lemma IntentReadersCanChange(lib: Library, r: Request, clock: Clock, p: Application, intent: string)
    requires p.preset == OneIntentPreset(intent) && Said(p.after, r) == Some(intent)
    ensures Applies(p, [NO_INTENT])
    ensures var before, after := SingleItem(lib, r, clock, [NO_INTENT], p.before),
                                 SingleItem(lib, r, clock, [NO_INTENT] + Added(p, [NO_INTENT]), p.after);
            && before.Some? && before.value.rule == NO_INTENT
            && after.Some? && after.value.rule.name == "by-intent" && after.value.target == p.mapping.premium
  {
    RowOfPreset(p, intent);
    ReaderAsks("no-intent", "custom", None);
    IntentsOf(lib, r, clock, p, [NO_INTENT]);
    var first := ContextFor(lib, r, clock, [NO_INTENT], p.before);
    ReaderMatches(lib, "no-intent", "custom", None, first);
    assert NO_INTENT in [NO_INTENT];
    EvaluateMeaning(lib, [NO_INTENT], first);
    PresetRuleWins(lib, [NO_INTENT] + Added(p, [NO_INTENT]),
                   ContextFor(lib, r, clock, [NO_INTENT] + Added(p, [NO_INTENT]), p.after),
                   Added(p, [NO_INTENT])[0], intent);
  }
}
