/**
 Tier selection: the two score-to-tier lookups, the blend of classifier score and caller's hint,
 the override for critical requests, and the auto-routing decision built from them.
 */
module Tiers {
  import opened Prelude

  datatype Tier = Tier(name: string, low: int, high: int, model: string)

  // ---------------------------------------------------------------------------
  // Lookups
  // ---------------------------------------------------------------------------

  predicate Covers(tier: Tier, score: int) {
    tier.low <= score <= tier.high
  }

  /** The loop shared by classifier and router: the first tier that covers the score, else `otherwise`. */
  function ScoreToTier(tiers: seq<Tier>, score: int, otherwise: string): string {
    if tiers == [] then otherwise
    else if Covers(tiers[0], score) then tiers[0].name
    else ScoreToTier(tiers[1..], score, otherwise)
  }

  /** The classifier's own fallback name, whatever the configuration says. */
  const CLASSIFIER_FALLBACK := "medium"

  function ClassifierTier(tiers: seq<Tier>, score: int): string {
    ScoreToTier(tiers, score, CLASSIFIER_FALLBACK)
  }

  /** The dict from tier name to tier: a later tier of the same name replaces an earlier one. */
  function TierNamed(tiers: seq<Tier>, name: string): Option<Tier> {
    if tiers == [] then None
    else if tiers[|tiers| - 1].name == name then Some(tiers[|tiers| - 1])
    else TierNamed(tiers[..|tiers| - 1], name)
  }

  function FallbackModel(tiers: seq<Tier>, fallbackTier: string): string {
    match TierNamed(tiers, fallbackTier)
    case Some(tier) => tier.model
    case None => if tiers != [] then tiers[0].model else "gpt-4o-mini"
  }

  /** The tier with the greatest upper bound; the first of several. */
  function HighestTier(tiers: seq<Tier>): Option<Tier> {
    if tiers == [] then None
    else
      match HighestTier(tiers[..|tiers| - 1])
      case None => Some(tiers[|tiers| - 1])
      case Some(best) => if tiers[|tiers| - 1].high > best.high then Some(tiers[|tiers| - 1]) else Some(best)
  }

  /** The tiers split 0..100 into adjacent ranges, lowest first. */
  ghost predicate Partition(tiers: seq<Tier>) {
    && |tiers| > 0 && tiers[0].low == 0 && tiers[|tiers| - 1].high == 100
    && (forall i :: 0 <= i < |tiers| ==> tiers[i].low <= tiers[i].high)
    && (forall i :: 0 < i < |tiers| ==> tiers[i].low == tiers[i - 1].high + 1)
  }

  ghost predicate DistinctTierNames(tiers: seq<Tier>) {
    forall i, j :: 0 <= i < j < |tiers| ==> tiers[i].name != tiers[j].name
  }

  lemma {:induction false} PartitionOrdered(tiers: seq<Tier>, i: nat, j: nat)
    requires Partition(tiers) && i < j < |tiers|
    ensures tiers[i].high < tiers[j].low
  {
    if i + 1 < j {
      PartitionOrdered(tiers, i, j - 1);
    }
  }

  lemma {:induction false} PartitionCovers(tiers: seq<Tier>, score: int, k: nat) returns (i: nat)
    requires Partition(tiers) && k < |tiers| && 0 <= score <= tiers[k].high
    ensures i <= k && Covers(tiers[i], score)
  {
    if tiers[k].low <= score {
      i := k;
    } else {
      i := PartitionCovers(tiers, score, k - 1);
    }
  }

  ghost predicate FirstCovering(tiers: seq<Tier>, score: int, i: int) {
    0 <= i < |tiers| && Covers(tiers[i], score) && forall j :: 0 <= j < i ==> !Covers(tiers[j], score)
  }

  lemma {:induction false} ScoreToTierFinds(tiers: seq<Tier>, score: int, otherwise: string)
    ensures forall i :: FirstCovering(tiers, score, i) ==> ScoreToTier(tiers, score, otherwise) == tiers[i].name
    ensures (forall i :: 0 <= i < |tiers| ==> !Covers(tiers[i], score)) ==>
            ScoreToTier(tiers, score, otherwise) == otherwise
  {
    if tiers != [] && !Covers(tiers[0], score) {
      var rest := tiers[1..];
      ScoreToTierFinds(rest, score, otherwise);
      forall i | FirstCovering(tiers, score, i) ensures ScoreToTier(tiers, score, otherwise) == tiers[i].name {
        assert forall j :: 0 <= j < i - 1 ==> rest[j] == tiers[j + 1];
        assert FirstCovering(rest, score, i - 1);
      }
    }
  }

  /** On a partition every score in range belongs to exactly one tier, and the lookup finds it. */
  lemma TierOfScore(tiers: seq<Tier>, score: int, otherwise: string) returns (i: nat)
    requires Partition(tiers) && 0 <= score <= 100
    ensures i < |tiers| && Covers(tiers[i], score) && ScoreToTier(tiers, score, otherwise) == tiers[i].name
    ensures forall j :: 0 <= j < |tiers| && Covers(tiers[j], score) ==> j == i
  {
    i := PartitionCovers(tiers, score, |tiers| - 1);
    forall j | 0 <= j < |tiers| && Covers(tiers[j], score) ensures j == i {
      if j < i {
        PartitionOrdered(tiers, j, i);
      } else if i < j {
        PartitionOrdered(tiers, i, j);
      }
    }
    assert FirstCovering(tiers, score, i);
    ScoreToTierFinds(tiers, score, otherwise);
  }

  /** A higher score never selects a lower tier. */
  lemma TierMonotone(tiers: seq<Tier>, s: int, t: int, i: nat, j: nat)
    requires Partition(tiers) && s <= t && i < |tiers| && j < |tiers|
    requires Covers(tiers[i], s) && Covers(tiers[j], t)
    ensures i <= j
  {
    if j < i {
      PartitionOrdered(tiers, j, i);
    }
  }

  /**
   Classifier and router name the same tier exactly when a tier covers the score or both fall back to the same name.
   */
  lemma LookupsAgree(tiers: seq<Tier>, score: int, fallbackTier: string)
    ensures ClassifierTier(tiers, score) == ScoreToTier(tiers, score, fallbackTier) <==>
            (exists i :: 0 <= i < |tiers| && Covers(tiers[i], score)) || fallbackTier == CLASSIFIER_FALLBACK
  {
    ScoreToTierFinds(tiers, score, CLASSIFIER_FALLBACK);
    ScoreToTierFinds(tiers, score, fallbackTier);
    if exists i :: 0 <= i < |tiers| && Covers(tiers[i], score) {
      var i := LeastCovering(tiers, score);
      assert FirstCovering(tiers, score, i);
    }
  }

  lemma {:induction false} LeastCovering(tiers: seq<Tier>, score: int) returns (i: nat)
    requires exists k :: 0 <= k < |tiers| && Covers(tiers[k], score)
    ensures FirstCovering(tiers, score, i)
  {
    if Covers(tiers[0], score) {
      i := 0;
    } else {
      var rest := tiers[1..];
      var k :| 0 <= k < |tiers| && Covers(tiers[k], score);
      assert rest[k - 1] == tiers[k];
      i := LeastCovering(rest, score);
      i := i + 1;
    }
  }

  lemma {:induction false} NamedTier(tiers: seq<Tier>, i: nat)
    requires DistinctTierNames(tiers) && i < |tiers|
    ensures TierNamed(tiers, tiers[i].name) == Some(tiers[i])
  {
    if i < |tiers| - 1 {
      NamedTier(tiers[..|tiers| - 1], i);
    }
  }

  /** The override for critical requests picks a tier no other tier tops, and the first such. */
  lemma {:induction false} HighestIsHighest(tiers: seq<Tier>) returns (i: nat)
    requires tiers != []
    ensures i < |tiers| && HighestTier(tiers) == Some(tiers[i])
    ensures forall j :: 0 <= j < |tiers| ==> tiers[j].high <= tiers[i].high
    ensures forall j :: 0 <= j < i ==> tiers[j].high < tiers[i].high
  {
    if |tiers| == 1 {
      i := 0;
    } else {
      var before := tiers[..|tiers| - 1];
      i := HighestIsHighest(before);
      assert forall j :: 0 <= j < |before| ==> before[j] == tiers[j];
      if tiers[|tiers| - 1].high > before[i].high {
        i := |tiers| - 1;
      }
    }
  }

  // ---------------------------------------------------------------------------
  // Blending
  // ---------------------------------------------------------------------------

  /** `round(0.7 * score + 0.3 * hint)` over exact tenths; a half goes to the even neighbour. */
  function Blend(score: int, hint: int): int {
    RoundTenths(7 * score + 3 * hint)
  }

  function RoundTenths(tenths: int): int {
    var q, r := tenths / 10, tenths % 10;
    if r < 5 || (r == 5 && q % 2 == 0) then q else q + 1
  }

  /** Rounding is to a nearest integer and keeps order. */
  lemma RoundTenthsIsNearest(a: int, b: int)
    ensures -5 <= 10 * RoundTenths(a) - a <= 5
    ensures 10 * RoundTenths(a) - a in {-5, 5} ==> RoundTenths(a) % 2 == 0
    ensures a <= b ==> RoundTenths(a) <= RoundTenths(b)
  {
  }

  /** The blend is seven to three, to the nearest integer; it lies between its inputs and rises with either. */
  lemma BlendBetweenAndMonotone(s: int, h: int, s': int, h': int)
    ensures Min(s, h) <= Blend(s, h) <= Max(s, h)
    ensures s <= s' && h <= h' ==> Blend(s, h) <= Blend(s', h')
    ensures -5 <= 10 * Blend(s, h) - (7 * s + 3 * h) <= 5
    ensures 10 * Blend(s, h) - (7 * s + 3 * h) in {-5, 5} ==> Blend(s, h) % 2 == 0
  {
    RoundTenthsIsNearest(10 * Min(s, h), 7 * s + 3 * h);
    RoundTenthsIsNearest(7 * s + 3 * h, 10 * Max(s, h));
    RoundTenthsIsNearest(7 * s + 3 * h, 7 * s' + 3 * h');
  }

  // ---------------------------------------------------------------------------
  // The auto-routing decision
  // ---------------------------------------------------------------------------

  datatype Outcome = Classified(tier: string, score: Option<int>) | ClassifierFailed

  datatype Decision = Decision(model: string, tier: string, score: Option<int>, source: Option<string>)

  function AutoRoute(tiers: seq<Tier>, fallbackTier: string, critical: bool, outcome: Outcome,
                     hint: Option<int>): Decision
  {
    if critical then
      match HighestTier(tiers)
      case Some(top) => Decision(top.model, top.name, None, Some("priority_override"))
      case None => Decision(FallbackModel(tiers, fallbackTier), fallbackTier, None, Some("priority_override"))
    else if outcome.ClassifierFailed? then
      Decision(FallbackModel(tiers, fallbackTier), fallbackTier, None, None)
    else if hint.Some? then
      var score := Blend(if outcome.score.Some? then outcome.score.value else 50, hint.value);
      var name := ScoreToTier(tiers, score, fallbackTier);
      Decision(ModelOfTier(tiers, name, fallbackTier), name, Some(score), Some("blend"))
    else
      Decision(ModelOfTier(tiers, outcome.tier, fallbackTier), outcome.tier, outcome.score, Some("classifier"))
  }

  function ModelOfTier(tiers: seq<Tier>, name: string, fallbackTier: string): string {
    match TierNamed(tiers, name)
    case Some(tier) => tier.model
    case None => FallbackModel(tiers, fallbackTier)
  }

  lemma {:induction false} UnlistedNameIsMissing(tiers: seq<Tier>, name: string)
    requires NoTierHas(tiers, name)
    ensures TierNamed(tiers, name).None?
  {
    if tiers != [] {
      UnlistedNameIsMissing(tiers[..|tiers| - 1], name);
    }
  }

  /** The model a name stands for: its tier's, or the fallback tier's, or the first tier's, or the built-in one. */
  ghost predicate ServesName(tiers: seq<Tier>, name: string, fallbackTier: string, model: string) {
    && (forall i :: 0 <= i < |tiers| && tiers[i].name == name ==> model == tiers[i].model)
    && (NoTierHas(tiers, name) ==>
          && (forall i :: 0 <= i < |tiers| && tiers[i].name == fallbackTier ==> model == tiers[i].model)
          && (NoTierHas(tiers, fallbackTier) ==> model == if tiers == [] then "gpt-4o-mini" else tiers[0].model))
  }

  predicate NoTierHas(tiers: seq<Tier>, name: string) {
    forall i :: 0 <= i < |tiers| ==> tiers[i].name != name
  }

  /**
   When there is no tier to go by: a failed classifier leads to the fallback tier, a classifier without a score
   counts as fifty for a hint, and a name that no tier has is served by the fallback.
   */
  lemma FallbacksExactly(tiers: seq<Tier>, fallbackTier: string, outcome: Outcome, hint: Option<int>, name: string)
    requires DistinctTierNames(tiers)
    ensures var d := AutoRoute(tiers, fallbackTier, false, ClassifierFailed, hint);
            d.tier == fallbackTier && d.score.None? && d.source.None?
            && ServesName(tiers, fallbackTier, fallbackTier, d.model)
    ensures var d := AutoRoute(tiers, fallbackTier, false, Classified(name, None), None);
            d.tier == name && d.score.None? && ServesName(tiers, name, fallbackTier, d.model)
    ensures hint.Some? ==> AutoRoute(tiers, fallbackTier, false, Classified(name, None), hint) ==
                           AutoRoute(tiers, fallbackTier, false, Classified(name, Some(50)), hint)
    ensures tiers == [] ==> AutoRoute(tiers, fallbackTier, true, outcome, hint).tier == fallbackTier
  {
    NameServes(tiers, fallbackTier, fallbackTier);
    NameServes(tiers, name, fallbackTier);
  }

  lemma NameServes(tiers: seq<Tier>, name: string, fallbackTier: string)
    requires DistinctTierNames(tiers)
    ensures ServesName(tiers, name, fallbackTier, ModelOfTier(tiers, name, fallbackTier))
    ensures ModelOfTier(tiers, fallbackTier, fallbackTier) == FallbackModel(tiers, fallbackTier)
  {
    NameFound(tiers, name);
    NameFound(tiers, fallbackTier);
  }

  lemma NameFound(tiers: seq<Tier>, name: string)
    requires DistinctTierNames(tiers)
    ensures forall i :: 0 <= i < |tiers| && tiers[i].name == name ==> TierNamed(tiers, name) == Some(tiers[i])
    ensures NoTierHas(tiers, name) ==> TierNamed(tiers, name).None?
  {
    if i :| 0 <= i < |tiers| && tiers[i].name == name {
      NamedTier(tiers, i);
    } else {
      UnlistedNameIsMissing(tiers, name);
    }
  }

  /** What the static classifier reports for a score. */
  function StaticOutcome(tiers: seq<Tier>, score: int): Outcome {
    Classified(ClassifierTier(tiers, score), Some(score))
  }

  function FinalScore(score: int, hint: Option<int>): int {
    if hint.Some? then Blend(score, hint.value) else score
  }

  lemma {:induction false} ListedNameIsFound(tiers: seq<Tier>, i: nat)
    requires i < |tiers|
    ensures TierNamed(tiers, tiers[i].name).Some?
  {
    if tiers[|tiers| - 1].name != tiers[i].name {
      ListedNameIsFound(tiers[..|tiers| - 1], i);
    }
  }

  /**
   With tiers that partition 0..100 and a score and hint in that range, the decision names the one tier
   that covers the final score, and the model comes from a tier of that name, never from the fallback. It
   is that tier's own model if no two tiers share a name, as tiers loaded from the keys of a mapping never do.
   */
  lemma AutoRouteIsTotal(tiers: seq<Tier>, fallbackTier: string, score: int, hint: Option<int>) returns (i: nat)
    requires Partition(tiers) && 0 <= score <= 100 && (hint.Some? ==> 0 <= hint.value <= 100)
    ensures i < |tiers| && Covers(tiers[i], FinalScore(score, hint))
    ensures var d := AutoRoute(tiers, fallbackTier, false, StaticOutcome(tiers, score), hint);
            && d.tier == tiers[i].name && d.score == Some(FinalScore(score, hint))
            && TierNamed(tiers, tiers[i].name).Some? && d.model == TierNamed(tiers, tiers[i].name).value.model
            && (DistinctTierNames(tiers) ==> d.model == tiers[i].model)
  {
    if hint.Some? {
      BlendBetweenAndMonotone(score, hint.value, score, hint.value);
      i := TierOfScore(tiers, Blend(score, hint.value), fallbackTier);
    } else {
      i := TierOfScore(tiers, score, CLASSIFIER_FALLBACK);
    }
    ListedNameIsFound(tiers, i);
    if DistinctTierNames(tiers) {
      NamedTier(tiers, i);
    }
  }

  /** Both absent, or both given and in order. */
  predicate HintLeq(g: Option<int>, h: Option<int>) {
    if g.None? || h.None? then g == h else 0 <= g.value <= h.value <= 100
  }

  /** A higher score and a higher hint never lead to a lower tier, and a critical request goes to the top one. */
  lemma AutoRouteMonotone(tiers: seq<Tier>, fallbackTier: string, s: int, t: int, g: Option<int>, h: Option<int>,
                          outcome: Outcome, any: Option<int>)
    returns (i: nat, j: nat, top: nat)
    requires Partition(tiers) && 0 <= s <= t <= 100 && HintLeq(g, h)
    ensures i <= j <= top < |tiers| && top == |tiers| - 1
    ensures AutoRoute(tiers, fallbackTier, false, StaticOutcome(tiers, s), g).tier == tiers[i].name
    ensures AutoRoute(tiers, fallbackTier, false, StaticOutcome(tiers, t), h).tier == tiers[j].name
    ensures AutoRoute(tiers, fallbackTier, true, outcome, any).tier == tiers[top].name
    ensures AutoRoute(tiers, fallbackTier, true, outcome, any).model == tiers[top].model
    ensures DistinctTierNames(tiers) ==>
              && AutoRoute(tiers, fallbackTier, false, StaticOutcome(tiers, s), g).model == tiers[i].model
              && AutoRoute(tiers, fallbackTier, false, StaticOutcome(tiers, t), h).model == tiers[j].model
  {
    i := AutoRouteIsTotal(tiers, fallbackTier, s, g);
    j := AutoRouteIsTotal(tiers, fallbackTier, t, h);
    if g.Some? {
      BlendBetweenAndMonotone(s, g.value, t, h.value);
    }
    TierMonotone(tiers, FinalScore(s, g), FinalScore(t, h), i, j);
    top := HighestIsHighest(tiers);
    if top < |tiers| - 1 {
      PartitionOrdered(tiers, top, |tiers| - 1);
    }
  }

  lemma {:induction false} NamedTierIsListed(tiers: seq<Tier>, name: string)
    ensures TierNamed(tiers, name).Some? ==> TierNamed(tiers, name).value in tiers
  {
    if tiers != [] {
      NamedTierIsListed(tiers[..|tiers| - 1], name);
    }
  }

  /**
   Whatever the tiers look like, auto-routing lands on a configured tier's model, or on the built-in model if there is
   no tier.
   */
  lemma AutoRouteStaysConfigured(tiers: seq<Tier>, fallbackTier: string, critical: bool, outcome: Outcome,
                                 hint: Option<int>)
    ensures var model := AutoRoute(tiers, fallbackTier, critical, outcome, hint).model;
            if tiers == [] then model == "gpt-4o-mini" else exists i :: 0 <= i < |tiers| && tiers[i].model == model
  {
    if tiers != [] {
      var _ := HighestIsHighest(tiers);
      NamedTierIsListed(tiers, fallbackTier);
      NamedTierIsListed(tiers, AutoRoute(tiers, fallbackTier, critical, outcome, hint).tier);
    }
  }
}
