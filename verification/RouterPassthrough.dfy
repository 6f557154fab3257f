/**
 Which requested names are passed through untouched: the baseline derived from the gateway
 configuration at load, the per-tenant set derived from the registry, and the precedence of
 passthrough, alias and auto-routing.
 */
module RouterPassthrough {
  import opened Prelude
  import opened RegistryMerge
  import opened RegistryService
  import opened Tiers

  datatype Params = Params(model: Option<string>, payload: nat)

  datatype ModelListEntry = ModelListEntry(modelName: Option<string>, params: Option<Params>)

  function ToYamlModel(entry: ModelListEntry): YamlModel
    requires entry.modelName.Some?
  {
    YamlModel(entry.modelName.value,
              if entry.params.Some? then entry.params.value.model else None,
              if entry.params.Some? then Some(entry.params.value.payload) else None)
  }

  function TierModels(tiers: seq<Tier>): set<string> {
    set i | 0 <= i < |tiers| :: tiers[i].model
  }

  function YamlModels(modelList: seq<ModelListEntry>): seq<YamlModel> {
    if modelList == [] then []
    else
      var before, entry := YamlModels(modelList[..|modelList| - 1]), modelList[|modelList| - 1];
      if Truthy(entry.modelName) then before + [ToYamlModel(entry)] else before
  }

  function NamesOf(yaml: seq<YamlModel>): set<string> {
    set i | 0 <= i < |yaml| :: yaml[i].name
  }

  /** Deriving the passthrough baseline and the registry's yaml half from one pass over `model_list`. */
  method LoadModels(tiers: seq<Tier>, modelList: seq<ModelListEntry>)
    returns (passthrough: set<string>, yamlModels: seq<YamlModel>)
    ensures yamlModels == YamlModels(modelList)
    ensures passthrough == TierModels(tiers) + NamesOf(yamlModels)
  {
    passthrough, yamlModels := {}, [];
    for i := 0 to |tiers|
      invariant passthrough == TierModels(tiers[..i])
    {
      assert tiers[..i + 1] == tiers[..i] + [tiers[i]];
      TierModelsGrow(tiers[..i], tiers[i]);
      passthrough := passthrough + {tiers[i].model};
    }
    assert tiers[..|tiers|] == tiers;
    for i := 0 to |modelList|
      invariant yamlModels == YamlModels(modelList[..i])
      invariant passthrough == TierModels(tiers) + NamesOf(yamlModels)
    {
      assert modelList[..i + 1][..i] == modelList[..i];
      var entry := modelList[i];
      if !Truthy(entry.modelName) {
        continue;
      }
      NamesGrow(yamlModels, ToYamlModel(entry));
      passthrough := passthrough + {entry.modelName.value};
      yamlModels := yamlModels + [ToYamlModel(entry)];
    }
    assert modelList[..|modelList|] == modelList;
  }

  lemma TierModelsGrow(tiers: seq<Tier>, tier: Tier)
    ensures TierModels(tiers + [tier]) == TierModels(tiers) + {tier.model}
  {
    var longer := tiers + [tier];
    assert longer[|tiers|] == tier;
    forall n | n in TierModels(tiers) ensures n in TierModels(longer) {
      var k :| 0 <= k < |tiers| && tiers[k].model == n;
      assert longer[k] == tiers[k];
    }
  }

  lemma NamesGrow(yaml: seq<YamlModel>, entry: YamlModel)
    ensures NamesOf(yaml + [entry]) == NamesOf(yaml) + {entry.name}
  {
    var longer := yaml + [entry];
    assert longer[|yaml|] == entry;
    forall n | n in NamesOf(yaml) ensures n in NamesOf(longer) {
      var k :| 0 <= k < |yaml| && yaml[k].name == n;
      assert longer[k] == yaml[k];
    }
  }

  /** `visible` is the tenant's model list, absent without a registry or without a tenant in the request. */
  function EffectivePassthrough(baseline: set<string>, tiers: seq<Tier>, visible: Option<seq<ModelEntry>>): set<string>
  {
    if visible.None? then baseline else PassthroughNames(visible.value) + TierModels(tiers)
  }

  function TenantView(modelList: seq<ModelListEntry>, rows: seq<Row>): seq<ModelEntry> {
    Merge(NormalizeAll(YamlModels(modelList)), rows)
  }

  function Baseline(tiers: seq<Tier>, modelList: seq<ModelListEntry>): set<string> {
    TierModels(tiers) + NamesOf(YamlModels(modelList))
  }

  ghost predicate PassthroughRow(rows: seq<Row>, name: string) {
    exists i :: Decides(rows, i) && rows[i].name == name && rows[i].isPassthrough
  }

  /**
   The names a tenant may pass through, from its rows alone: every tier model, every name whose
   deciding custom row says so, and every yaml name with neither a custom nor a hide row.
   */
  lemma PassthroughMeaning(tiers: seq<Tier>, modelList: seq<ModelListEntry>, rows: seq<Row>, name: string)
    ensures name in EffectivePassthrough(Baseline(tiers, modelList), tiers, Some(TenantView(modelList, rows))) <==>
            || name in TierModels(tiers)
            || PassthroughRow(rows, name)
            || (name in NamesOf(YamlModels(modelList)) && !HasRow(rows, CUSTOM, name) &&
                !HasRow(rows, HIDE_SYSTEM, name))
  {
    var yaml := YamlModels(modelList);
    var system, view := NormalizeAll(yaml), TenantView(modelList, rows);
    if name in PassthroughNames(view) {
      var k :| 0 <= k < |view| && view[k].isPassthrough && view[k].name == name;
      MergeMembers(system, rows, view[k]);
      if CustomVisible(rows, view[k]) {
        var i :| Decides(rows, i) && view[k] == FromRow(rows[i]);
        assert rows[i].name == name && rows[i].isPassthrough;
      } else {
        var j :| 0 <= j < |system| && system[j] == view[k];
        assert yaml[j].name == name;
      }
    }
    if PassthroughRow(rows, name) {
      var i :| Decides(rows, i) && rows[i].name == name && rows[i].isPassthrough;
      MergeMembers(system, rows, FromRow(rows[i]));
      var k :| 0 <= k < |view| && view[k] == FromRow(rows[i]);
      assert view[k].isPassthrough && view[k].name == name;
    }
    if name in NamesOf(yaml) && !HasRow(rows, CUSTOM, name) && !HasRow(rows, HIDE_SYSTEM, name) {
      var j :| 0 <= j < |yaml| && yaml[j].name == name;
      assert system[j] == NormalizeYaml(yaml[j]);
      MergeMembers(system, rows, system[j]);
      var k :| 0 <= k < |view| && view[k] == system[j];
      assert view[k].isPassthrough && view[k].name == name;
    }
  }

  /**
   A name the tenant hid, and neither routes a tier to nor replaced with a passthrough row, is never passed through.
   */
  lemma HiddenStaysHidden(tiers: seq<Tier>, modelList: seq<ModelListEntry>, rows: seq<Row>, name: string)
    requires HasRow(rows, HIDE_SYSTEM, name) && name !in TierModels(tiers) && !PassthroughRow(rows, name)
    ensures name !in EffectivePassthrough(Baseline(tiers, modelList), tiers, Some(TenantView(modelList, rows)))
  {
    PassthroughMeaning(tiers, modelList, rows, name);
  }

  /** A tenant without rows sees exactly the baseline that requests without a tenant see. */
  lemma NoRowsMeansBaseline(tiers: seq<Tier>, modelList: seq<ModelListEntry>)
    ensures EffectivePassthrough(Baseline(tiers, modelList), tiers, Some(TenantView(modelList, []))) ==
            EffectivePassthrough(Baseline(tiers, modelList), tiers, None)
  {
    var effective := EffectivePassthrough(Baseline(tiers, modelList), tiers, Some(TenantView(modelList, [])));
    forall name ensures name in effective <==> name in Baseline(tiers, modelList) {
      PassthroughMeaning(tiers, modelList, [], name);
    }
  }

  // ---------------------------------------------------------------------------
  // Precedence
  // ---------------------------------------------------------------------------

  const AUTO_ROUTE := "auto_route"

  datatype Method = Passthrough | Alias | Auto

  datatype RouteResult = RouteResult(how: Method, model: string)

  function Route(requested: string, passthrough: set<string>, aliases: map<string, string>, auto: Decision): RouteResult
  {
    if requested in passthrough then RouteResult(Passthrough, requested)
    else if AliasedElsewhere(aliases, requested) then RouteResult(Alias, aliases[requested])
    else RouteResult(Auto, auto.model)
  }

  predicate AliasedElsewhere(aliases: map<string, string>, name: string) {
    name in aliases && aliases[name] != AUTO_ROUTE
  }

  /** A known name goes to itself, an alias to what it stands for, and everything else where auto-routing decides. */
  lemma RoutePrecedence(tiers: seq<Tier>, modelList: seq<ModelListEntry>, rows: seq<Row>, aliases: map<string, string>,
                        auto: Decision, name: string)
    ensures var passthrough :=
            EffectivePassthrough(Baseline(tiers, modelList), tiers, Some(TenantView(modelList, rows)));
            var result := Route(name, passthrough, aliases, auto);
            && (name in TierModels(tiers) || PassthroughRow(rows, name) ==> result == RouteResult(Passthrough, name))
            && (name in passthrough ==> result == RouteResult(Passthrough, name))
            && (name !in passthrough && AliasedElsewhere(aliases, name) ==>
                  result == RouteResult(Alias, aliases[name]))
            && (name !in passthrough && !AliasedElsewhere(aliases, name) ==> result == RouteResult(Auto, auto.model))
  {
    PassthroughMeaning(tiers, modelList, rows, name);
  }

  /**
   A tenant that hides a yaml model is routed away from it, to the model it is an alias of, or else by
   complexity to a tier's model; and hiding a tier's model changes nothing.
   */
  lemma HidingRedirects(tiers: seq<Tier>, modelList: seq<ModelListEntry>, rows: seq<Row>, aliases: map<string, string>,
                        fallbackTier: string, critical: bool, outcome: Outcome, hint: Option<int>, name: string)
    requires HasRow(rows, HIDE_SYSTEM, name) && !PassthroughRow(rows, name) && tiers != []
    ensures var passthrough :=
            EffectivePassthrough(Baseline(tiers, modelList), tiers, Some(TenantView(modelList, rows)));
            var result := Route(name, passthrough, aliases, AutoRoute(tiers, fallbackTier, critical, outcome, hint));
            && (result.how == Passthrough <==> name in TierModels(tiers))
            && (result.how == Alias <==> name !in TierModels(tiers) && AliasedElsewhere(aliases, name))
            && (result.how == Alias ==> result.model == aliases[name])
            && (result.how != Alias ==> result.model in TierModels(tiers))
  {
    PassthroughMeaning(tiers, modelList, rows, name);
    AutoRouteStaysConfigured(tiers, fallbackTier, critical, outcome, hint);
  }
}
