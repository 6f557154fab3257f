/** The static classifier: six signals of a request, weighted, raised to floors, truncated and clamped. */
module StaticScore {
  import opened Prelude
  import opened Messages
  import Conditions
  import Tiers

  datatype Weights = Weights(tokens: real, prompt: real, keywords: real, turns: real, code: real, tools: real)

  datatype Config = Config(weights: Weights, low: int, medium: int, high: int,
                           complexKeywords: seq<string>, simpleKeywords: seq<string>)

  const DEFAULT_WEIGHTS := Weights(0.25, 0.20, 0.25, 0.10, 0.15, 0.05)

  const WORDS_TO_TOKENS_RATIO := 1.3

  /** Text functions of the standard library, taken as given: lower-casing, word splitting, fenced code blocks. */
  datatype TextTools = TextTools(lower: string -> string, words: string -> nat, codeBlocks: string -> seq<string>)

  /** What the score is computed from. */
  datatype Signals = Signals(words: nat, promptLength: nat, promptMatches: nat, complex: nat, simple: nat, turns: nat,
                             blocks: nat, lines: nat, hasErrors: bool, tools: nat)

  datatype ClassificationResult = ClassificationResult(tier: string, strategy: string, score: Option<int>,
      confidence: Option<real>)

  // ---------------------------------------------------------------------------
  // Raw signals
  // ---------------------------------------------------------------------------

  /** Python's `int` on a float: towards zero. */
  function Truncate(x: real): int {
    if x >= 0.0 then x.Floor else -((-x).Floor)
  }

  function ScoreTokens(c: Config, words: nat): int {
    var estimated := Truncate(words as real * WORDS_TO_TOKENS_RATIO);
    if estimated < c.low then 10 else if estimated < c.medium then 35 else if estimated < c.high then 60 else 85
  }

  function ScorePrompt(length: nat, matches: nat): int {
    if length == 0 then 0 else Min(100, Min(40, length / 50) + Min(60, matches * 15))
  }

  function ScoreKeywords(complex: nat, simple: nat): int {
    if complex > 0 && simple == 0 then Min(100, 50 + complex * 10)
    else if simple > 0 && complex == 0 then Max(0, 15 - simple * 3)
    else Max(0, Min(100, 30 + (complex - simple) * 8))
  }

  function ScoreTurns(turns: nat): int {
    if turns <= 1 then 10 else if turns <= 3 then 30 else if turns <= 5 then 50 else 70
  }

  function ScoreCode(blocks: nat, lines: nat, hasErrors: bool): int {
    if blocks == 0 then 0
    else Min(100, Min(60, lines * 2) + (if hasErrors then 25 else 0) + Min(15, (blocks - 1) * 5))
  }

  function ScoreTools(tools: nat): int {
    if tools == 0 then 0 else Min(80, 30 + tools * 10)
  }

  // ---------------------------------------------------------------------------
  // The score
  // ---------------------------------------------------------------------------

  /** The raw signals, each between 0 and 100. */
  datatype Raw = Raw(tokens: int, prompt: int, keywords: int, turns: int, code: int, tools: int)

  function RawOf(c: Config, s: Signals): (r: Raw)
    ensures InPercent(r)
  {
    Raw(ScoreTokens(c, s.words), ScorePrompt(s.promptLength, s.promptMatches), ScoreKeywords(s.complex, s.simple),
        ScoreTurns(s.turns), ScoreCode(s.blocks, s.lines, s.hasErrors), ScoreTools(s.tools))
  }

  predicate InPercent(r: Raw) {
    && 0 <= r.tokens <= 100 && 0 <= r.prompt <= 100 && 0 <= r.keywords <= 100
    && 0 <= r.turns <= 100 && 0 <= r.code <= 100 && 0 <= r.tools <= 100
  }

  function Sum(xs: seq<real>): real {
    if xs == [] then 0.0 else Sum(xs[..|xs| - 1]) + xs[|xs| - 1]
  }

  function Times(raw: int, weight: real): real {
    raw as real * weight
  }

  function Products(raws: seq<int>, weights: seq<real>): seq<real>
    requires |raws| == |weights|
  {
    seq(|raws|, i requires 0 <= i < |raws| => Times(raws[i], weights[i]))
  }

  function RawList(r: Raw): seq<int> {
    [r.tokens, r.prompt, r.keywords, r.turns, r.code, r.tools]
  }

  function WeightList(w: Weights): seq<real> {
    [w.tokens, w.prompt, w.keywords, w.turns, w.code, w.tools]
  }

  function Weighted(w: Weights, r: Raw): real {
    Sum(Products(RawList(r), WeightList(w)))
  }

  function KeywordFloor(keywords: int): int {
    if keywords >= 80 then 70 else if keywords >= 60 then 45 else if keywords >= 40 then 25 else 0
  }

  function PromptFloor(prompt: int): int {
    if prompt >= 60 then 50 else 0
  }

  function CodeFloor(code: int): int {
    if code >= 60 then 50 else if code >= 30 then 30 else 0
  }

  function AtLeast(total: real, floor: int): real {
    if floor > 0 && total < floor as real then floor as real else total
  }

  /** The weighted total, raised to the keyword, prompt and code floors in turn. */
  function Floored(w: Weights, r: Raw): real {
    AtLeast(AtLeast(AtLeast(Weighted(w, r), KeywordFloor(r.keywords)), PromptFloor(r.prompt)), CodeFloor(r.code))
  }

  function Score(c: Config, s: Signals): (score: int)
    ensures 0 <= score <= 100
  {
    Max(0, Min(100, Truncate(Floored(c.weights, RawOf(c, s)))))
  }

  // ---------------------------------------------------------------------------
  // Signals of a request
  // ---------------------------------------------------------------------------

  function Hits(keywords: seq<string>, text: string): (n: nat)
    ensures n <= |keywords|
  {
    if keywords == [] then 0
    else Hits(keywords[..|keywords| - 1], text) + if Conditions.Substring(keywords[|keywords| - 1], text) then 1 else 0
  }

  const COMPLEXITY_WORDS := ["architect", "design", "analyze", "review", "plan", "refactor", "security", "optimize"]

  function Newlines(text: string): nat {
    if text == "" then 0 else Newlines(text[..|text| - 1]) + if text[|text| - 1] == '\n' then 1 else 0
  }

  function TotalLines(blocks: seq<string>): nat {
    if blocks == [] then 0 else TotalLines(blocks[..|blocks| - 1]) + Newlines(blocks[|blocks| - 1])
  }

  predicate HasErrors(text: string) {
    || Conditions.Substring("Traceback", text) || Conditions.Substring("Error:", text)
    || Conditions.Substring("Exception", text) || Conditions.Substring("FAILED", text)
  }

  function SignalsOf(t: TextTools, c: Config, r: Request): Signals {
    var messages := MessagesOf(r);
    var all, user, prompt := AllText(messages), UserText(messages), SystemPrompt(r);
    Signals(t.words(all), |prompt|, Hits(COMPLEXITY_WORDS, t.lower(prompt)), Hits(c.complexKeywords, t.lower(user)),
            Hits(c.simpleKeywords, t.lower(user)), UserTurns(messages), |t.codeBlocks(all)|,
                TotalLines(t.codeBlocks(all)),
            HasErrors(all), |r.tools|)
  }

  function Classify(t: TextTools, c: Config, tiers: seq<Tiers.Tier>, r: Request): ClassificationResult {
    var score := Score(c, SignalsOf(t, c, r));
    ClassificationResult(Tiers.ClassifierTier(tiers, score), "static", Some(score), None)
  }

  // ---------------------------------------------------------------------------
  // Monotonicity
  // ---------------------------------------------------------------------------

  /** `b` is at least as demanding as `a` in every signal; simple keywords count the other way. */
  ghost predicate NoEasier(a: Signals, b: Signals) {
    && a.words <= b.words && a.promptLength <= b.promptLength && a.promptMatches <= b.promptMatches
    && a.complex <= b.complex && a.simple >= b.simple && a.turns <= b.turns
    && a.blocks <= b.blocks && a.lines <= b.lines && (a.hasErrors ==> b.hasErrors) && a.tools <= b.tools
  }

  ghost predicate NonNegative(w: Weights) {
    w.tokens >= 0.0 && w.prompt >= 0.0 && w.keywords >= 0.0 && w.turns >= 0.0 && w.code >= 0.0 && w.tools >= 0.0
  }

  lemma TruncateMonotone(x: real, y: real)
    requires x <= y
    ensures Truncate(x) <= Truncate(y)
  {
  }

  /**
   The three keyword branches fit together: more complex keywords never lower the signal, more simple ones never raise
   it.
   */
  lemma KeywordsMonotone(complex: nat, simple: nat, complex': nat, simple': nat)
    requires complex <= complex' && simple >= simple'
    ensures ScoreKeywords(complex, simple) <= ScoreKeywords(complex', simple')
  {
  }

  lemma TokensMonotone(c: Config, words: nat, words': nat)
    requires words <= words'
    ensures ScoreTokens(c, words) <= ScoreTokens(c, words')
  {
    TruncateMonotone(words as real * WORDS_TO_TOKENS_RATIO, words' as real * WORDS_TO_TOKENS_RATIO);
  }

  ghost predicate RawLeq(a: Raw, b: Raw) {
    && a.tokens <= b.tokens && a.prompt <= b.prompt && a.keywords <= b.keywords
    && a.turns <= b.turns && a.code <= b.code && a.tools <= b.tools
  }

  lemma RawMonotone(c: Config, a: Signals, b: Signals)
    requires NoEasier(a, b)
    ensures RawLeq(RawOf(c, a), RawOf(c, b))
  {
    TokensMonotone(c, a.words, b.words);
    KeywordsMonotone(a.complex, a.simple, b.complex, b.simple);
  }

  lemma Scaled(x: int, y: int, weight: real)
    requires x <= y && weight >= 0.0
    ensures Times(x, weight) <= Times(y, weight)
  {
  }

  lemma {:induction false} SumMonotone(xs: seq<real>, ys: seq<real>)
    requires |xs| == |ys| && forall i :: 0 <= i < |xs| ==> xs[i] <= ys[i]
    ensures Sum(xs) <= Sum(ys)
  {
    if xs != [] {
      SumMonotone(xs[..|xs| - 1], ys[..|ys| - 1]);
    }
  }

  lemma WeightedMonotone(w: Weights, a: Raw, b: Raw)
    requires NonNegative(w) && RawLeq(a, b)
    ensures Weighted(w, a) <= Weighted(w, b)
  {
    var xs, ys, ws := RawList(a), RawList(b), WeightList(w);
    forall i | 0 <= i < 6 ensures Products(xs, ws)[i] <= Products(ys, ws)[i] {
      Scaled(xs[i], ys[i], ws[i]);
    }
    SumMonotone(Products(xs, ws), Products(ys, ws));
  }

  lemma AtLeastMonotone(x: real, y: real, f: int, g: int)
    requires x <= y && f <= g
    ensures AtLeast(x, f) <= AtLeast(y, g)
  {
  }

  lemma FlooredMonotone(w: Weights, a: Raw, b: Raw)
    requires NonNegative(w) && RawLeq(a, b)
    ensures Floored(w, a) <= Floored(w, b)
  {
    WeightedMonotone(w, a, b);
    AtLeastMonotone(Weighted(w, a), Weighted(w, b), KeywordFloor(a.keywords), KeywordFloor(b.keywords));
    var x, y := AtLeast(Weighted(w, a), KeywordFloor(a.keywords)), AtLeast(Weighted(w, b), KeywordFloor(b.keywords));
    AtLeastMonotone(x, y, PromptFloor(a.prompt), PromptFloor(b.prompt));
    AtLeastMonotone(AtLeast(x, PromptFloor(a.prompt)), AtLeast(y, PromptFloor(b.prompt)), CodeFloor(a.code),
                    CodeFloor(b.code));
  }

  /** Through branches, weights, floors, truncation and clamp: a request no easier in any signal scores no lower. */
  lemma ScoreMonotone(c: Config, a: Signals, b: Signals)
    requires NonNegative(c.weights) && NoEasier(a, b)
    ensures Score(c, a) <= Score(c, b)
  {
    RawMonotone(c, a, b);
    FlooredMonotone(c.weights, RawOf(c, a), RawOf(c, b));
    TruncateMonotone(Floored(c.weights, RawOf(c, a)), Floored(c.weights, RawOf(c, b)));
  }

  /** Without non-negative weights it is false: a negative weight on tools lets a second tool lower the score. */
  lemma NegativeWeightBreaksIt(c: Config, s: Signals)
    requires c.weights == Weights(1.0, 0.0, 0.0, 0.0, 0.0, -0.1)
    requires s == Signals(0, 0, 0, 0, 0, 1, 0, 0, false, 1) && c.low > 0
    ensures NoEasier(s, s.(tools := 2)) && Score(c, s.(tools := 2)) < Score(c, s)
  {
    SixProducts(c.weights, RawOf(c, s));
    SixProducts(c.weights, RawOf(c, s.(tools := 2)));
    assert RawOf(c, s) == Raw(10, 0, 30, 10, 0, 40);
    assert RawOf(c, s.(tools := 2)) == Raw(10, 0, 30, 10, 0, 50);
  }

  lemma SixProducts(w: Weights, r: Raw)
    ensures Weighted(w, r) == Times(r.tokens, w.tokens) + Times(r.prompt, w.prompt) + Times(r.keywords, w.keywords)
                              + Times(r.turns, w.turns) + Times(r.code, w.code) + Times(r.tools, w.tools)
  {
    var products := Products(RawList(r), WeightList(w));
    SumOfSix(products);
  }

  lemma SumOfSix(xs: seq<real>)
    requires |xs| == 6
    ensures Sum(xs) == xs[0] + xs[1] + xs[2] + xs[3] + xs[4] + xs[5]
  {
    assert xs == [] + [xs[0]] + [xs[1]] + [xs[2]] + [xs[3]] + [xs[4]] + [xs[5]];
    SumSnoc([], xs[0]);
    SumSnoc([] + [xs[0]], xs[1]);
    SumSnoc([] + [xs[0]] + [xs[1]], xs[2]);
    SumSnoc([] + [xs[0]] + [xs[1]] + [xs[2]], xs[3]);
    SumSnoc([] + [xs[0]] + [xs[1]] + [xs[2]] + [xs[3]], xs[4]);
    SumSnoc([] + [xs[0]] + [xs[1]] + [xs[2]] + [xs[3]] + [xs[4]], xs[5]);
  }

  lemma SumSnoc(xs: seq<real>, x: real)
    ensures Sum(xs + [x]) == Sum(xs) + x
  {
    assert (xs + [x])[..|xs|] == xs;
  }

  /** With weights that sum to at most one the clamp is idle: the score is the floored total, truncated. */
  lemma ClampIsIdle(c: Config, s: Signals)
    requires NonNegative(c.weights)
    requires c.weights.tokens + c.weights.prompt + c.weights.keywords + c.weights.turns + c.weights.code +
             c.weights.tools <= 1.0
    ensures 0.0 <= Floored(c.weights, RawOf(c, s)) <= 100.0
    ensures Score(c, s) == Floored(c.weights, RawOf(c, s)).Floor
  {
    WeightedInPercent(c.weights, RawOf(c, s));
  }

  lemma WeightedInPercent(w: Weights, r: Raw)
    requires NonNegative(w) && InPercent(r) && w.tokens + w.prompt + w.keywords + w.turns + w.code + w.tools <= 1.0
    ensures 0.0 <= Weighted(w, r) <= 100.0
  {
    var raws, weights := RawList(r), WeightList(w);
    forall i | 0 <= i < 6 ensures 0.0 <= Products(raws, weights)[i] <= 100.0 * weights[i] {
      TimesBetween(raws[i], weights[i]);
    }
    SumBetween(Products(raws, weights), weights);
    SumOfSix(weights);
  }

  lemma TimesBetween(raw: int, weight: real)
    requires 0 <= raw <= 100 && weight >= 0.0
    ensures 0.0 <= Times(raw, weight) <= 100.0 * weight
  {
  }

  lemma {:induction false} SumBetween(xs: seq<real>, weights: seq<real>)
    requires |xs| == |weights| && forall i :: 0 <= i < |xs| ==> 0.0 <= xs[i] <= 100.0 * weights[i]
    ensures 0.0 <= Sum(xs) <= 100.0 * Sum(weights)
  {
    if xs != [] {
      SumBetween(xs[..|xs| - 1], weights[..|xs| - 1]);
    }
  }

  /** Which keyword counts reach which floor. */
  lemma KeywordBands(complex: nat, simple: nat)
    ensures KeywordFloor(ScoreKeywords(complex, simple)) == 70 <==> complex >= simple + if simple == 0 then 3 else 7
    ensures KeywordFloor(ScoreKeywords(complex, simple)) >= 45 <==> complex >= simple + if simple == 0 then 1 else 4
    ensures KeywordFloor(ScoreKeywords(complex, simple)) >= 25 <==> complex >= simple + if simple == 0 then 1 else 2
  {
  }

  /** Which code blocks reach which floor: lines count twice, an error trace 25, each further block five up to three. */
  lemma CodeBands(blocks: nat, lines: nat, hasErrors: bool)
    ensures var points := 2 * lines + (if hasErrors then 25 else 0) + Min(15, 5 * (blocks - 1));
            && (CodeFloor(ScoreCode(blocks, lines, hasErrors)) == 50 <==> blocks > 0 && points >= 60)
            && (CodeFloor(ScoreCode(blocks, lines, hasErrors)) >= 30 <==> blocks > 0 && points >= 30)
  {
  }

  /** Which system prompts reach the floor: four complexity words do, two or three in a long enough prompt. */
  lemma PromptBands(length: nat, matches: nat)
    ensures PromptFloor(ScorePrompt(length, matches)) == 50 <==>
            && length > 0
            && (matches >= 4 || (matches == 3 && length >= 750) || (matches == 2 && length >= 1500))
  {
  }

  /** Which word counts, at 1.3 tokens a word rounded down, lie in which token band. */
  lemma TokenBands(c: Config, words: nat)
    requires c.low <= c.medium <= c.high
    ensures var estimated := 13 * words / 10;
            && (ScoreTokens(c, words) == 10 <==> estimated < c.low)
            && (ScoreTokens(c, words) == 35 <==> c.low <= estimated < c.medium)
            && (ScoreTokens(c, words) == 60 <==> c.medium <= estimated < c.high)
            && (ScoreTokens(c, words) == 85 <==> c.high <= estimated)
  {
    var tenths := 13 * words;
    assert words as real * WORDS_TO_TOKENS_RATIO == tenths as real / 10.0;
    assert (tenths / 10) as real <= tenths as real / 10.0 < (tenths / 10) as real + 1.0 by {
      assert tenths == 10 * (tenths / 10) + tenths % 10;
    }
    assert Truncate(words as real * WORDS_TO_TOKENS_RATIO) == tenths / 10;
  }

  /** Three complex keywords in the user's text and no simple one are enough for a score of 70, whatever else. */
  lemma KeywordsForceScore(t: TextTools, c: Config, r: Request)
    requires var user := t.lower(UserText(MessagesOf(r)));
             Hits(c.complexKeywords, user) >= 3 && Hits(c.simpleKeywords, user) == 0
    ensures Score(c, SignalsOf(t, c, r)) >= 70
  {
    KeywordBands(SignalsOf(t, c, r).complex, SignalsOf(t, c, r).simple);
    FloorsBind(c, SignalsOf(t, c, r));
  }

  /** A word that error traces have. */
  predicate ShowsError(text: string) {
    exists i :: 0 <= i < |ERROR_WORDS| && Conditions.Substring(ERROR_WORDS[i], text)
  }

  const ERROR_WORDS := ["Traceback", "Error:", "Exception", "FAILED"]

  lemma HasErrorsExactly(text: string)
    ensures HasErrors(text) <==> ShowsError(text)
  {
    assert ERROR_WORDS[0] == "Traceback" && ERROR_WORDS[1] == "Error:";
    assert ERROR_WORDS[2] == "Exception" && ERROR_WORDS[3] == "FAILED";
  }

  /** So are thirty lines of fenced code, or eighteen with an error trace, for a score of 50. */
  lemma CodeForcesScore(t: TextTools, c: Config, r: Request)
    requires var all := AllText(MessagesOf(r)); var lines := TotalLines(t.codeBlocks(all));
             t.codeBlocks(all) != [] && (lines >= 30 || (lines >= 18 && ShowsError(all)))
    ensures Score(c, SignalsOf(t, c, r)) >= 50
  {
    var s := SignalsOf(t, c, r);
    HasErrorsExactly(AllText(MessagesOf(r)));
    CodeBands(s.blocks, s.lines, s.hasErrors);
    FloorsBind(c, s);
  }

  /** And a system prompt with four of the complexity words. */
  lemma PromptForcesScore(t: TextTools, c: Config, r: Request)
    requires SystemPrompt(r) != "" && Hits(COMPLEXITY_WORDS, t.lower(SystemPrompt(r))) >= 4
    ensures Score(c, SignalsOf(t, c, r)) >= 50
  {
    PromptBands(|SystemPrompt(r)|, Hits(COMPLEXITY_WORDS, t.lower(SystemPrompt(r))));
    FloorsBind(c, SignalsOf(t, c, r));
  }

  lemma {:induction false} HitsCount(keywords: seq<string>, text: string)
    ensures Hits(keywords, text) == |HitSet(keywords, text)|
  {
    if keywords != [] {
      var last := |keywords| - 1;
      HitsCount(keywords[..last], text);
      var before := HitSet(keywords[..last], text);
      assert forall i :: 0 <= i < last ==> keywords[..last][i] == keywords[i];
      assert HitSet(keywords, text) == if Conditions.Substring(keywords[last], text) then before + {last} else before;
    }
  }

  /** The positions of the keywords that occur in the text. */
  function HitSet(keywords: seq<string>, text: string): set<nat> {
    set i: nat | i < |keywords| && Conditions.Substring(keywords[i], text)
  }

  /** The floors bind whatever the weights are. */
  lemma FloorsBind(c: Config, s: Signals)
    ensures var r := RawOf(c, s);
            Score(c, s) >= KeywordFloor(r.keywords) && Score(c, s) >= PromptFloor(r.prompt) &&
                Score(c, s) >= CodeFloor(r.code)
  {
    var r, total := RawOf(c, s), Floored(c.weights, RawOf(c, s));
    assert total >= KeywordFloor(r.keywords) as real || KeywordFloor(r.keywords) == 0;
    assert total >= PromptFloor(r.prompt) as real || PromptFloor(r.prompt) == 0;
    assert total >= CodeFloor(r.code) as real || CodeFloor(r.code) == 0;
  }

  /** One more tool never moves a request to a cheaper tier, when the tiers partition the range. */
  lemma MoreToolsNoCheaper(t: TextTools, c: Config, tiers: seq<Tiers.Tier>, r: Request, tool: Tool)
    returns (i: nat, j: nat)
    requires NonNegative(c.weights) && Tiers.Partition(tiers)
    ensures i <= j < |tiers|
    ensures Classify(t, c, tiers, r).tier == tiers[i].name &&
            Classify(t, c, tiers, r.(tools := r.tools + [tool])).tier == tiers[j].name
  {
    var a, b := SignalsOf(t, c, r), SignalsOf(t, c, r.(tools := r.tools + [tool]));
    ScoreMonotone(c, a, b);
    i := Tiers.TierOfScore(tiers, Score(c, a), Tiers.CLASSIFIER_FALLBACK);
    j := Tiers.TierOfScore(tiers, Score(c, b), Tiers.CLASSIFIER_FALLBACK);
    Tiers.TierMonotone(tiers, Score(c, a), Score(c, b), i, j);
  }
}
