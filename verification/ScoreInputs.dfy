/** What the static classifier reads of a request, and so which requests it can never tell apart. */
module ScoreInputs {
  import opened Prelude
  import opened Messages
  import opened StaticScore
  import Conditions

  /** The three texts the classifier extracts are the same. */
  predicate SameTexts(a: Request, b: Request) {
    && AllText(MessagesOf(a)) == AllText(MessagesOf(b))
    && UserText(MessagesOf(a)) == UserText(MessagesOf(b))
    && SystemPrompt(a) == SystemPrompt(b)
  }

  function Turns(r: Request): nat {
    UserTurns(MessagesOf(r))
  }

  ghost predicate AlwaysSameSignals(a: Request, b: Request) {
    forall t, c :: SignalsOf(t, c, a) == SignalsOf(t, c, b)
  }

  ghost predicate AlwaysSameAnswer(a: Request, b: Request) {
    forall t, c, tiers :: Classify(t, c, tiers, a) == Classify(t, c, tiers, b)
  }

  /** Turns are told apart in bands: up to one, three, five, and more. */
  predicate SameTurnBand(m: nat, n: nat) {
    (m <= 1 <==> n <= 1) && (m <= 3 <==> n <= 3) && (m <= 5 <==> n <= 5)
  }

  /** The texts agree, and turns and tools as far as they are told apart. */
  predicate Indistinguishable(a: Request, b: Request) {
    SameTexts(a, b) && SameTurnBand(Turns(a), Turns(b)) && Min(|a.tools|, 5) == Min(|b.tools|, 5)
  }

  // ---------------------------------------------------------------------------
  // Text functions and settings that show one difference
  // ---------------------------------------------------------------------------

  const NO_WEIGHTS := Weights(0.0, 0.0, 0.0, 0.0, 0.0, 0.0)

  function Setting(w: Weights, keywords: seq<string>): Config {
    Config(w, 1, 1, 1, keywords, [])
  }

  /** Counts one word in every text but `text`. */
  function WordsBut(text: string): TextTools {
    TextTools(_ => "", s => if s == text then 0 else 1, _ => [])
  }

  /** Lower-cases `text` to `to`, and every other text to nothing. */
  function Marks(text: string, to: string): TextTools {
    TextTools(s => if s == text then to else "", _ => 0, _ => [])
  }

  lemma NothingInNothing(word: string)
    requires word != ""
    ensures !Conditions.Substring(word, "") && Conditions.Substring(word, word)
  {
    assert word[0..][..|word|] == word;
  }

  lemma HitsOfOne(word: string, text: string)
    ensures Hits([word], text) == if Conditions.Substring(word, text) then 1 else 0
  {
    assert [word][..0] == [];
  }

  lemma {:induction false} NoHitsInNothing(words: seq<string>)
    requires forall i :: 0 <= i < |words| ==> words[i] != ""
    ensures Hits(words, "") == 0
  {
    if words != [] {
      NoHitsInNothing(words[..|words| - 1]);
      NothingInNothing(words[|words| - 1]);
    }
  }

  lemma {:induction false} HitsMember(words: seq<string>, i: nat)
    requires i < |words| && words[i] != ""
    ensures Hits(words, words[i]) >= 1
  {
    if i < |words| - 1 {
      assert words[..|words| - 1][i] == words[i];
      HitsMember(words[..|words| - 1], i);
    } else {
      NothingInNothing(words[i]);
    }
  }

  lemma OneWeight(w: Weights, r: Raw)
    ensures w == NO_WEIGHTS.(tokens := 1.0) ==> Weighted(w, r) == r.tokens as real
    ensures w == NO_WEIGHTS.(prompt := 1.0) ==> Weighted(w, r) == r.prompt as real
    ensures w == NO_WEIGHTS.(keywords := 1.0) ==> Weighted(w, r) == r.keywords as real
    ensures w == NO_WEIGHTS.(turns := 1.0) ==> Weighted(w, r) == r.turns as real
    ensures w == NO_WEIGHTS.(tools := 1.0) ==> Weighted(w, r) == r.tools as real
  {
    SixProducts(w, r);
  }

  /** With no floor in reach the score is the one weighted signal. */
  lemma Unfloored(c: Config, s: Signals, raw: int)
    requires InPercent(RawOf(c, s)) && Weighted(c.weights, RawOf(c, s)) == raw as real && 0 <= raw <= 100
    requires RawOf(c, s).keywords < 40 && RawOf(c, s).prompt < 60 && RawOf(c, s).code < 30
    ensures Score(c, s) == raw
  {
  }

  // ---------------------------------------------------------------------------
  // Each difference shows
  // ---------------------------------------------------------------------------

  lemma TokensShow(a: Request, b: Request)
    requires AllText(MessagesOf(a)) != AllText(MessagesOf(b))
    ensures var t, c := WordsBut(AllText(MessagesOf(a))), Setting(NO_WEIGHTS.(tokens := 1.0), []);
            Score(c, SignalsOf(t, c, a)) != Score(c, SignalsOf(t, c, b))
  {
    var t, c := WordsBut(AllText(MessagesOf(a))), Setting(NO_WEIGHTS.(tokens := 1.0), []);
    Quiet(t, c, a);
    Quiet(t, c, b);
    assert Truncate(0 as real * WORDS_TO_TOKENS_RATIO) == 0 && Truncate(1 as real * WORDS_TO_TOKENS_RATIO) == 1;
    OneWeight(c.weights, RawOf(c, SignalsOf(t, c, a)));
    OneWeight(c.weights, RawOf(c, SignalsOf(t, c, b)));
    Unfloored(c, SignalsOf(t, c, a), 10);
    Unfloored(c, SignalsOf(t, c, b), 85);
  }

  /** Without code blocks, and where no keyword and no complexity word is found. */
  lemma Quiet(t: TextTools, c: Config, r: Request)
    requires (c.complexKeywords == [] || c.complexKeywords == ["x"]) && c.simpleKeywords == []
    requires t.codeBlocks(AllText(MessagesOf(r))) == []
    ensures var s := SignalsOf(t, c, r);
            && (t.lower(SystemPrompt(r)) == "" ==> s.promptMatches == 0 && RawOf(c, s).prompt <= 40)
            && (t.lower(UserText(MessagesOf(r))) == "" || c.complexKeywords == [] ==> RawOf(c, s).keywords == 30)
            && RawOf(c, s).code == 0
  {
    NoHitsInNothing(COMPLEXITY_WORDS);
    NoHitsInNothing(c.complexKeywords);
  }

  lemma UserTextShows(a: Request, b: Request)
    requires UserText(MessagesOf(a)) != UserText(MessagesOf(b))
    ensures var t, c := Marks(UserText(MessagesOf(a)), "x"), Setting(NO_WEIGHTS.(keywords := 1.0), ["x"]);
            Score(c, SignalsOf(t, c, a)) != Score(c, SignalsOf(t, c, b))
  {
    var t, c := Marks(UserText(MessagesOf(a)), "x"), Setting(NO_WEIGHTS.(keywords := 1.0), ["x"]);
    Quiet(t, c, b);
    HitsOfOne("x", "x");
    NothingInNothing("x");
    var s, s' := SignalsOf(t, c, a), SignalsOf(t, c, b);
    assert RawOf(c, s).keywords == 60 && RawOf(c, s').keywords == 30;
    OneWeight(c.weights, RawOf(c, s));
    OneWeight(c.weights, RawOf(c, s'));
    assert Score(c, s) >= 60;
    assert Score(c, s') <= 50;
  }

  /** Floors only raise: a score is at least any total they start from. */
  lemma NeverBelow(c: Config, s: Signals, raw: int)
    requires Weighted(c.weights, RawOf(c, s)) == raw as real && 0 <= raw <= 100
    ensures Score(c, s) >= raw
  {
  }

  /** A prompt with a complexity word outscores a shorter one, or one as long, without. */
  lemma PromptWins(c: Config, s: Signals, s': Signals)
    requires c == Setting(NO_WEIGHTS.(prompt := 1.0), [])
    requires s.promptLength > 0 && s.promptLength >= s'.promptLength && s.promptMatches >= 1 && s'.promptMatches == 0
    requires RawOf(c, s').keywords == 30 && RawOf(c, s').code == 0
    ensures Score(c, s) > Score(c, s')
  {
    OneWeight(c.weights, RawOf(c, s));
    OneWeight(c.weights, RawOf(c, s'));
    assert RawOf(c, s).prompt >= RawOf(c, s').prompt + 15;
    NeverBelow(c, s, RawOf(c, s).prompt);
    Unfloored(c, s', RawOf(c, s').prompt);
  }

  lemma PromptShows(a: Request, b: Request)
    requires SystemPrompt(a) != SystemPrompt(b) && |SystemPrompt(a)| >= |SystemPrompt(b)|
    ensures var t, c := Marks(SystemPrompt(a), COMPLEXITY_WORDS[0]), Setting(NO_WEIGHTS.(prompt := 1.0), []);
            Score(c, SignalsOf(t, c, a)) > Score(c, SignalsOf(t, c, b))
  {
    var t, c := Marks(SystemPrompt(a), COMPLEXITY_WORDS[0]), Setting(NO_WEIGHTS.(prompt := 1.0), []);
    HitsMember(COMPLEXITY_WORDS, 0);
    Quiet(t, c, b);
    PromptWins(c, SignalsOf(t, c, a), SignalsOf(t, c, b));
  }

  const SILENT := TextTools(_ => "", _ => 0, _ => [])

  lemma TurnsShow(a: Request, b: Request)
    requires !SameTurnBand(Turns(a), Turns(b))
    ensures var c := Setting(NO_WEIGHTS.(turns := 1.0), []);
            Score(c, SignalsOf(SILENT, c, a)) != Score(c, SignalsOf(SILENT, c, b))
  {
    var c := Setting(NO_WEIGHTS.(turns := 1.0), []);
    AloneShows(c, a, RawOf(c, SignalsOf(SILENT, c, a)).turns);
    AloneShows(c, b, RawOf(c, SignalsOf(SILENT, c, b)).turns);
  }

  lemma ToolsShow(a: Request, b: Request)
    requires Min(|a.tools|, 5) != Min(|b.tools|, 5)
    ensures var c := Setting(NO_WEIGHTS.(tools := 1.0), []);
            Score(c, SignalsOf(SILENT, c, a)) != Score(c, SignalsOf(SILENT, c, b))
  {
    var c := Setting(NO_WEIGHTS.(tools := 1.0), []);
    AloneShows(c, a, RawOf(c, SignalsOf(SILENT, c, a)).tools);
    AloneShows(c, b, RawOf(c, SignalsOf(SILENT, c, b)).tools);
  }

  lemma AloneShows(c: Config, r: Request, raw: int)
    requires || (c == Setting(NO_WEIGHTS.(turns := 1.0), []) && raw == RawOf(c, SignalsOf(SILENT, c, r)).turns)
             || (c == Setting(NO_WEIGHTS.(tools := 1.0), []) && raw == RawOf(c, SignalsOf(SILENT, c, r)).tools)
    ensures Score(c, SignalsOf(SILENT, c, r)) == raw
  {
    Quiet(SILENT, c, r);
    OneWeight(c.weights, RawOf(c, SignalsOf(SILENT, c, r)));
    Unfloored(c, SignalsOf(SILENT, c, r), raw);
  }

  // ---------------------------------------------------------------------------
  // The exact conditions
  // ---------------------------------------------------------------------------

  /** Requests with different texts score apart under some text functions and settings. */
  lemma DifferentTextsShow(a: Request, b: Request)
    requires !SameTexts(a, b)
    ensures exists t, c :: Score(c, SignalsOf(t, c, a)) != Score(c, SignalsOf(t, c, b))
  {
    if AllText(MessagesOf(a)) != AllText(MessagesOf(b)) {
      TokensShow(a, b);
    } else if UserText(MessagesOf(a)) != UserText(MessagesOf(b)) {
      UserTextShows(a, b);
    } else if |SystemPrompt(a)| >= |SystemPrompt(b)| {
      PromptShows(a, b);
    } else {
      PromptShows(b, a);
    }
  }

  /** Whatever texts and settings are, two requests give the same signals just if these five things agree. */
  lemma SignalsExactly(a: Request, b: Request)
    ensures AlwaysSameSignals(a, b) <==> SameTexts(a, b) && Turns(a) == Turns(b) && |a.tools| == |b.tools|
  {
    if AlwaysSameSignals(a, b) {
      assert SignalsOf(SILENT, Setting(NO_WEIGHTS, []), a) == SignalsOf(SILENT, Setting(NO_WEIGHTS, []), b);
      if !SameTexts(a, b) {
        DifferentTextsShow(a, b);
        assert false;
      }
    }
  }

  /** And the same classification, with any tiers, just if they are indistinguishable in this sense. */
  lemma AnswersExactly(a: Request, b: Request)
    ensures AlwaysSameAnswer(a, b) <==> Indistinguishable(a, b)
  {
    if AlwaysSameAnswer(a, b) {
      forall t, c ensures Score(c, SignalsOf(t, c, a)) == Score(c, SignalsOf(t, c, b)) {
        assert Classify(t, c, [], a) == Classify(t, c, [], b);
      }
      if !SameTexts(a, b) {
        DifferentTextsShow(a, b);
        assert false;
      }
      if !SameTurnBand(Turns(a), Turns(b)) {
        TurnsShow(a, b);
        assert false;
      }
      if Min(|a.tools|, 5) != Min(|b.tools|, 5) {
        ToolsShow(a, b);
        assert false;
      }
    } else {
      var t, c, tiers :| Classify(t, c, tiers, a) != Classify(t, c, tiers, b);
      assert !Indistinguishable(a, b) by {
        if Indistinguishable(a, b) {
          SameRaw(t, c, a, b);
        }
      }
    }
  }

  lemma SameRaw(t: TextTools, c: Config, a: Request, b: Request)
    requires Indistinguishable(a, b)
    ensures Score(c, SignalsOf(t, c, a)) == Score(c, SignalsOf(t, c, b))
  {
    assert RawOf(c, SignalsOf(t, c, a)) == RawOf(c, SignalsOf(t, c, b));
  }
}
