/**
 The yaml-union-DB merge behind the per-tenant model registry: what a tenant sees
 when its `custom` and `hide_system` rows are applied to the operator's yaml models.
 */
module RegistryMerge {
  import opened Prelude

  datatype Row = Row(id: nat, tenant: nat, name: string, origin: string,
                     litellmModel: Option<string>, litellmParams: Option<nat>, isPassthrough: bool)

  datatype ModelEntry = ModelEntry(name: string, origin: string, isPassthrough: bool,
                                   litellmModel: Option<string>, litellmParams: Option<nat>,
                                   id: Option<nat>, tenant: Option<nat>)

  /** One entry of the `yaml_model_list` kept on the routing configuration. */
  datatype YamlModel = YamlModel(name: string, litellmModel: Option<string>, litellmParams: Option<nat>)

  const CUSTOM := "custom"
  const HIDE_SYSTEM := "hide_system"

  function NormalizeYaml(entry: YamlModel): ModelEntry {
    ModelEntry(entry.name, "system", true, entry.litellmModel, entry.litellmParams, None, None)
  }

  function NormalizeAll(entries: seq<YamlModel>): seq<ModelEntry> {
    seq(|entries|, i requires 0 <= i < |entries| => NormalizeYaml(entries[i]))
  }

  function FromRow(row: Row): ModelEntry {
    ModelEntry(row.name, CUSTOM, row.isPassthrough, row.litellmModel, row.litellmParams, Some(row.id), Some(row.tenant))
  }

  // ---------------------------------------------------------------------------
  // The merge as the loops compute it
  // ---------------------------------------------------------------------------

  /** The dict `custom_by_name`: a later row replaces an earlier one of the same name. */
  function CustomByName(rows: seq<Row>): map<string, Row> {
    if rows == [] then map[]
    else
      var before, row := CustomByName(rows[..|rows| - 1]), rows[|rows| - 1];
      if row.origin == CUSTOM then before[row.name := row] else before
  }

  /** The iteration order of that dict: a name keeps the place of its first insertion. */
  function CustomOrder(rows: seq<Row>): seq<string> {
    if rows == [] then []
    else
      var before, row := CustomOrder(rows[..|rows| - 1]), rows[|rows| - 1];
      if row.origin == CUSTOM && row.name !in before then before + [row.name] else before
  }

  function HiddenNames(rows: seq<Row>): set<string> {
    set i | 0 <= i < |rows| && rows[i].origin == HIDE_SYSTEM :: rows[i].name
  }

  /** The yaml entries that are neither replaced nor hidden, in yaml order. */
  function Visible(yaml: seq<ModelEntry>, replaced: set<string>, hidden: set<string>): seq<ModelEntry> {
    if yaml == [] then []
    else
      var before, entry := Visible(yaml[..|yaml| - 1], replaced, hidden), yaml[|yaml| - 1];
      if entry.name in replaced || entry.name in hidden then before else before + [entry]
  }

  function CustomEntries(order: seq<string>, byName: map<string, Row>): seq<ModelEntry>
    requires forall n :: n in order ==> n in byName
  {
    seq(|order|, i requires 0 <= i < |order| => FromRow(byName[order[i]]))
  }

  lemma {:induction false} OrderCoversDict(rows: seq<Row>)
    ensures forall n :: n in CustomOrder(rows) <==> n in CustomByName(rows)
    ensures forall i, j :: 0 <= i < j < |CustomOrder(rows)| ==> CustomOrder(rows)[i] != CustomOrder(rows)[j]
    ensures forall n :: n in CustomByName(rows) ==>
            CustomByName(rows)[n].name == n && CustomByName(rows)[n].origin == CUSTOM
  {
    if rows != [] {
      OrderCoversDict(rows[..|rows| - 1]);
    }
  }

  function Merge(yaml: seq<ModelEntry>, rows: seq<Row>): seq<ModelEntry> {
    OrderCoversDict(rows);
    Visible(yaml, CustomByName(rows).Keys, HiddenNames(rows)) + CustomEntries(CustomOrder(rows), CustomByName(rows))
  }

  // ---------------------------------------------------------------------------
  // What the merge means
  // ---------------------------------------------------------------------------

  /** Row `i` is the one that decides the custom entry of its name. */
  ghost predicate Decides(rows: seq<Row>, i: int) {
    && 0 <= i < |rows|
    && rows[i].origin == CUSTOM
    && forall j :: i < j < |rows| && rows[j].origin == CUSTOM ==> rows[j].name != rows[i].name
  }

  ghost predicate HasRow(rows: seq<Row>, origin: string, name: string) {
    exists i :: 0 <= i < |rows| && rows[i].origin == origin && rows[i].name == name
  }

  lemma {:induction false} DeciderIsInDict(rows: seq<Row>, i: int)
    requires Decides(rows, i)
    ensures rows[i].name in CustomByName(rows) && CustomByName(rows)[rows[i].name] == rows[i]
  {
    var before := rows[..|rows| - 1];
    if i < |rows| - 1 {
      assert forall j :: 0 <= j < |before| ==> before[j] == rows[j];
      DeciderIsInDict(before, i);
    }
  }

  lemma {:induction false} DictHasDecider(rows: seq<Row>, name: string) returns (i: int)
    requires name in CustomByName(rows)
    ensures Decides(rows, i) && rows[i].name == name
  {
    var last := |rows| - 1;
    if rows[last].origin == CUSTOM && rows[last].name == name {
      i := last;
    } else {
      var before := rows[..last];
      assert forall j :: 0 <= j < |before| ==> before[j] == rows[j];
      i := DictHasDecider(before, name);
    }
  }

  lemma {:induction false} CustomRowIsInDict(rows: seq<Row>, i: int)
    requires 0 <= i < |rows| && rows[i].origin == CUSTOM
    ensures rows[i].name in CustomByName(rows)
  {
    var before := rows[..|rows| - 1];
    if i < |rows| - 1 {
      assert before[i] == rows[i];
      CustomRowIsInDict(before, i);
    }
  }

  lemma DictKeys(rows: seq<Row>, name: string)
    ensures name in CustomByName(rows) <==> HasRow(rows, CUSTOM, name)
  {
    if name in CustomByName(rows) {
      var i := DictHasDecider(rows, name);
      assert rows[i].origin == CUSTOM && rows[i].name == name;
    }
    if HasRow(rows, CUSTOM, name) {
      var i :| 0 <= i < |rows| && rows[i].origin == CUSTOM && rows[i].name == name;
      CustomRowIsInDict(rows, i);
    }
  }

  lemma {:induction false} VisibleMembers(yaml: seq<ModelEntry>, replaced: set<string>, hidden: set<string>)
    ensures forall e :: e in Visible(yaml, replaced, hidden) <==> e in yaml && e.name !in replaced && e.name !in hidden
  {
    if yaml != [] {
      VisibleMembers(yaml[..|yaml| - 1], replaced, hidden);
      assert yaml == yaml[..|yaml| - 1] + [yaml[|yaml| - 1]];
    }
  }

  ghost predicate DistinctNames(models: seq<ModelEntry>) {
    forall i, j :: 0 <= i < j < |models| ==> models[i].name != models[j].name
  }

  lemma {:induction false} VisibleDistinct(yaml: seq<ModelEntry>, replaced: set<string>, hidden: set<string>)
    requires DistinctNames(yaml)
    ensures DistinctNames(Visible(yaml, replaced, hidden))
  {
    if yaml != [] {
      var before := yaml[..|yaml| - 1];
      VisibleDistinct(before, replaced, hidden);
      VisibleMembers(before, replaced, hidden);
      forall e | e in before ensures e.name != yaml[|yaml| - 1].name {
        var k :| 0 <= k < |before| && before[k] == e;
        assert yaml[k] == e;
      }
    }
  }

  ghost predicate SystemVisible(yaml: seq<ModelEntry>, rows: seq<Row>, e: ModelEntry) {
    e in yaml && !HasRow(rows, CUSTOM, e.name) && !HasRow(rows, HIDE_SYSTEM, e.name)
  }

  ghost predicate CustomVisible(rows: seq<Row>, e: ModelEntry) {
    exists i :: Decides(rows, i) && e == FromRow(rows[i])
  }

  lemma SystemPart(yaml: seq<ModelEntry>, rows: seq<Row>, e: ModelEntry)
    ensures e in Visible(yaml, CustomByName(rows).Keys, HiddenNames(rows)) <==> SystemVisible(yaml, rows, e)
  {
    DictKeys(rows, e.name);
    VisibleMembers(yaml, CustomByName(rows).Keys, HiddenNames(rows));
    assert e.name in HiddenNames(rows) <==> HasRow(rows, HIDE_SYSTEM, e.name);
  }

  lemma CustomPart(rows: seq<Row>, e: ModelEntry)
    requires forall n :: n in CustomOrder(rows) ==> n in CustomByName(rows)
    ensures e in CustomEntries(CustomOrder(rows), CustomByName(rows)) <==> CustomVisible(rows, e)
  {
    OrderCoversDict(rows);
    var byName, order := CustomByName(rows), CustomOrder(rows);
    var custom := CustomEntries(order, byName);
    if e in custom {
      var k :| 0 <= k < |custom| && custom[k] == e;
      assert order[k] in byName;
      var i := DictHasDecider(rows, order[k]);
      DeciderIsInDict(rows, i);
      assert e == FromRow(rows[i]);
    }
    if CustomVisible(rows, e) {
      var i :| Decides(rows, i) && e == FromRow(rows[i]);
      DeciderIsInDict(rows, i);
      var k :| 0 <= k < |order| && order[k] == rows[i].name;
      assert custom[k] == e;
    }
  }

  /** Custom beats hide, hide removes yaml, and rows of any other origin change nothing. */
  lemma MergeMembers(yaml: seq<ModelEntry>, rows: seq<Row>, e: ModelEntry)
    ensures e in Merge(yaml, rows) <==> SystemVisible(yaml, rows, e) || CustomVisible(rows, e)
  {
    OrderCoversDict(rows);
    SystemPart(yaml, rows, e);
    CustomPart(rows, e);
  }

  /** No name is listed twice, provided the operator's yaml lists none twice. */
  lemma MergeDistinct(yaml: seq<ModelEntry>, rows: seq<Row>)
    requires DistinctNames(yaml)
    ensures DistinctNames(Merge(yaml, rows))
  {
    OrderCoversDict(rows);
    var byName, order := CustomByName(rows), CustomOrder(rows);
    var system := Visible(yaml, byName.Keys, HiddenNames(rows));
    VisibleDistinct(yaml, byName.Keys, HiddenNames(rows));
    VisibleMembers(yaml, byName.Keys, HiddenNames(rows));
    var merged := Merge(yaml, rows);
    forall i, j | 0 <= i < j < |merged| ensures merged[i].name != merged[j].name {
      if i < |system| <= j {
        assert merged[i] in system;
        assert merged[j].name == order[j - |system|];
      } else if |system| <= i {
        assert merged[i].name == order[i - |system|] && merged[j].name == order[j - |system|];
      }
    }
  }

  /** A tenant without rows sees exactly the yaml models, in yaml order. */
  lemma {:induction false} MergeWithoutRows(yaml: seq<ModelEntry>)
    ensures Merge(yaml, []) == yaml
  {
    assert CustomByName([]).Keys == {} && HiddenNames([]) == {};
    if yaml != [] {
      MergeWithoutRows(yaml[..|yaml| - 1]);
    }
  }

  // ---------------------------------------------------------------------------
  // The order of the listing
  // ---------------------------------------------------------------------------

  /** Both entries are the yaml's, in this order. */
  ghost predicate InYamlOrder(yaml: seq<ModelEntry>, e: ModelEntry, f: ModelEntry) {
    exists a, b :: 0 <= a < b < |yaml| && yaml[a] == e && yaml[b] == f
  }

  /** Row `i` is the first custom one of its name. */
  ghost predicate Introduces(rows: seq<Row>, i: int, name: string) {
    && 0 <= i < |rows| && rows[i].origin == CUSTOM && rows[i].name == name
    && forall j :: 0 <= j < i && rows[j].origin == CUSTOM ==> rows[j].name != name
  }

  ghost predicate InRowOrder(rows: seq<Row>, name: string, other: string) {
    exists a, b :: a < b && Introduces(rows, a, name) && Introduces(rows, b, other)
  }

  ghost predicate YamlOrdered(yaml: seq<ModelEntry>, visible: seq<ModelEntry>) {
    forall i, j :: 0 <= i < j < |visible| ==> InYamlOrder(yaml, visible[i], visible[j])
  }

  ghost predicate RowOrdered(rows: seq<Row>, order: seq<string>) {
    forall i, j :: 0 <= i < j < |order| ==> InRowOrder(rows, order[i], order[j])
  }

  lemma {:induction false} VisibleInOrder(yaml: seq<ModelEntry>, replaced: set<string>, hidden: set<string>)
    ensures YamlOrdered(yaml, Visible(yaml, replaced, hidden))
  {
    if yaml != [] {
      var before := yaml[..|yaml| - 1];
      VisibleInOrder(before, replaced, hidden);
      VisibleMembers(before, replaced, hidden);
      OneMoreInOrder(yaml, Visible(before, replaced, hidden));
    }
  }

  lemma OneMoreInOrder(yaml: seq<ModelEntry>, earlier: seq<ModelEntry>)
    requires yaml != [] && YamlOrdered(yaml[..|yaml| - 1], earlier)
    requires forall e :: e in earlier ==> e in yaml[..|yaml| - 1]
    ensures YamlOrdered(yaml, earlier) && YamlOrdered(yaml, earlier + [yaml[|yaml| - 1]])
  {
    var before, last := yaml[..|yaml| - 1], |yaml| - 1;
    forall i, j | 0 <= i < j < |earlier| ensures InYamlOrder(yaml, earlier[i], earlier[j]) {
      assert InYamlOrder(before, earlier[i], earlier[j]);
      var a, b :| 0 <= a < b < |before| && before[a] == earlier[i] && before[b] == earlier[j];
      assert yaml[a] == earlier[i] && yaml[b] == earlier[j];
    }
    forall i | 0 <= i < |earlier| ensures InYamlOrder(yaml, earlier[i], yaml[last]) {
      var e := earlier[i];
      assert e in earlier && e in before;
      var a :| 0 <= a < |before| && before[a] == e;
      assert yaml[a] == e;
    }
  }

  lemma IntroducesLater(rows: seq<Row>, i: int, name: string)
    requires rows != [] && Introduces(rows[..|rows| - 1], i, name)
    ensures Introduces(rows, i, name)
  {
    assert forall j :: 0 <= j < |rows| - 1 ==> rows[..|rows| - 1][j] == rows[j];
  }

  lemma {:induction false} EachIsIntroduced(rows: seq<Row>, name: string) returns (i: int)
    requires name in CustomByName(rows)
    ensures Introduces(rows, i, name)
  {
    var before := rows[..|rows| - 1];
    if name in CustomByName(before) {
      i := EachIsIntroduced(before, name);
      IntroducesLater(rows, i, name);
    } else {
      i := |rows| - 1;
      forall j | 0 <= j < i && rows[j].origin == CUSTOM ensures rows[j].name != name {
        assert before[j] == rows[j];
        CustomRowIsInDict(before, j);
      }
    }
  }

  lemma {:induction false} CustomInOrder(rows: seq<Row>)
    ensures RowOrdered(rows, CustomOrder(rows))
  {
    if rows != [] {
      var before, last := rows[..|rows| - 1], rows[|rows| - 1];
      CustomInOrder(before);
      OrderCoversDict(before);
      OrderStays(rows, CustomOrder(before));
      if last.origin == CUSTOM && last.name !in CustomOrder(before) {
        LastIsIntroduced(rows);
        forall i | 0 <= i < |CustomOrder(before)| ensures InRowOrder(rows, CustomOrder(before)[i], last.name) {
          assert CustomOrder(before)[i] in CustomOrder(before);
          var a := EachIsIntroduced(before, CustomOrder(before)[i]);
          IntroducesLater(rows, a, CustomOrder(before)[i]);
        }
      }
    }
  }

  lemma OrderStays(rows: seq<Row>, order: seq<string>)
    requires rows != [] && RowOrdered(rows[..|rows| - 1], order)
    ensures RowOrdered(rows, order)
  {
    var before := rows[..|rows| - 1];
    forall i, j | 0 <= i < j < |order| ensures InRowOrder(rows, order[i], order[j]) {
      assert InRowOrder(before, order[i], order[j]);
      var a, b :| a < b && Introduces(before, a, order[i]) && Introduces(before, b, order[j]);
      IntroducesLater(rows, a, order[i]);
      IntroducesLater(rows, b, order[j]);
    }
  }

  lemma LastIsIntroduced(rows: seq<Row>)
    requires rows != [] && rows[|rows| - 1].origin == CUSTOM
    requires rows[|rows| - 1].name !in CustomByName(rows[..|rows| - 1])
    ensures Introduces(rows, |rows| - 1, rows[|rows| - 1].name)
  {
    var before := rows[..|rows| - 1];
    forall j | 0 <= j < |before| && rows[j].origin == CUSTOM ensures rows[j].name != rows[|rows| - 1].name {
      assert before[j] == rows[j];
      CustomRowIsInDict(before, j);
    }
  }

  /** The yaml's own come first, in yaml order; then the tenant's, in the order in which their names first appear. */
  lemma MergeOrder(yaml: seq<ModelEntry>, rows: seq<Row>) returns (system: seq<ModelEntry>, custom: seq<ModelEntry>)
    ensures Merge(yaml, rows) == system + custom
    ensures forall e :: e in system <==> SystemVisible(yaml, rows, e)
    ensures forall e :: e in custom <==> CustomVisible(rows, e)
    ensures YamlOrdered(yaml, system)
    ensures forall i, j :: 0 <= i < j < |custom| ==> InRowOrder(rows, custom[i].name, custom[j].name)
  {
    OrderCoversDict(rows);
    var byName, order := CustomByName(rows), CustomOrder(rows);
    system, custom := Visible(yaml, byName.Keys, HiddenNames(rows)), CustomEntries(order, byName);
    VisibleInOrder(yaml, byName.Keys, HiddenNames(rows));
    forall e ensures e in system <==> SystemVisible(yaml, rows, e) {
      SystemPart(yaml, rows, e);
    }
    forall e ensures e in custom <==> CustomVisible(rows, e) {
      CustomPart(rows, e);
    }
    CustomInOrder(rows);
    forall i, j | 0 <= i < j < |custom| ensures InRowOrder(rows, custom[i].name, custom[j].name) {
      assert order[i] in byName && order[j] in byName;
      assert custom[i].name == order[i] && custom[j].name == order[j];
    }
  }
}
