/** Requests that hash alike and are scored apart: each way in which a fingerprint hides what the score is made of. */
module Collisions {
  import opened Prelude
  import opened Messages
  import opened StaticScore
  import Conditions
  import opened Fingerprint

  // ---------------------------------------------------------------------------
  // Framing bytes and list content
  // ---------------------------------------------------------------------------

  lemma {:induction false} Utf8Concat(s: string, t: string)
    ensures Utf8(s + t) == Utf8(s) + Utf8(t)
  {
    if s == "" {
      assert s + t == t;
    } else {
      Utf8Concat(s[1..], t);
      assert (s + t)[1..] == s[1..] + t;
      Regroup(Utf8Char(s[0]), Utf8(s[1..]), Utf8(t));
    }
  }

  const FRAME_BREAK := "\U{0001}M\0"

  lemma Utf8OfBreak()
    ensures Utf8(FRAME_BREAK) == [1, 0x4D, 0] && Utf8("\0") == [0]
  {
    assert FRAME_BREAK[1..] == "M\0" && "M\0"[1..] == "\0" && "\0"[1..] == "";
  }

  function Disguised(x: string, y: string): string {
    x + FRAME_BREAK + USER + "\0" + y
  }

  lemma Utf8OfDisguised(x: string, y: string)
    ensures Utf8(Disguised(x, y)) == Utf8(x) + [1, 0x4D, 0] + Utf8(USER) + [0] + Utf8(y)
  {
    Utf8OfBreak();
    Utf8Concat(x + FRAME_BREAK + USER + "\0", y);
    Utf8Concat(x + FRAME_BREAK + USER, "\0");
    Utf8Concat(x + FRAME_BREAK, USER);
    Utf8Concat(x, FRAME_BREAK);
  }

  lemma StreamOfOne(a: Item)
    ensures Stream([a]) == Frame(a)
  {
    StreamSnoc([], a);
    assert [] + [a] == [a] && [] + Frame(a) == Frame(a);
  }

  lemma StreamOfTwo(a: Item, b: Item)
    ensures Stream([a, b]) == Frame(a) + Frame(b)
  {
    StreamOfOne(a);
    StreamSnoc([a], b);
    assert [a] + [b] == [a, b];
  }

  /**
   Framing bytes inside a text imitate a message boundary: one message then hashes like two, and two user turns count as
   one.
   */
  lemma FramingBytesCollide(x: string, y: string)
    ensures Stream([MessageItem(USER, Disguised(x, y))]) == Stream([MessageItem(USER, x), MessageItem(USER, y)])
    ensures UserTurns([Message(USER, Text(Disguised(x, y)))]) == 1
    ensures UserTurns([Message(USER, Text(x)), Message(USER, Text(y))]) == 2
  {
    StreamOfOne(MessageItem(USER, Disguised(x, y)));
    StreamOfTwo(MessageItem(USER, x), MessageItem(USER, y));
    Utf8OfDisguised(x, y);
    Imitation(Utf8(USER), Utf8(x), Utf8(y));
    TurnsOfTwo(Message(USER, Text(x)), Message(USER, Text(y)));
    TurnsOfOne(Message(USER, Text(Disguised(x, y))));
  }

  lemma TurnsOfOne(a: Message)
    requires a.role == USER
    ensures Users([a]) == [a]
  {
    assert [a][..0] == [];
  }

  lemma TurnsOfTwo(a: Message, b: Message)
    requires a.role == USER && b.role == USER
    ensures UserTurns([a, b]) == 2
  {
    assert [a, b][..1] == [a];
    TurnsOfOne(a);
  }

  lemma Imitation(u: seq<Byte>, x: seq<Byte>, y: seq<Byte>)
    ensures [0x4D, 0] + u + [0] + (x + [1, 0x4D, 0] + u + [0] + y) + [1] ==
            ([0x4D, 0] + u + [0] + x + [1]) + ([0x4D, 0] + u + [0] + y + [1])
  {
  }

  /** List content is hashed joined by newlines but scored joined by blanks. */
  lemma ListContentCollides(x: string, y: string)
    ensures var plain, listed := Message(USER, Text(x + "\n" + y)), Message(USER, Blocks([TextBlock(x), TextBlock(y)]));
            && MessageItems([plain]) == MessageItems([listed])
            && AllText([plain]) == x + "\n" + y && AllText([listed]) == x + " " + y
  {
    var plain, listed := Message(USER, Text(x + "\n" + y)), Message(USER, Blocks([TextBlock(x), TextBlock(y)]));
    var blocks := listed.content.blocks;
    var texts := LinesOf(blocks);
    assert texts == [x, y];
    JoinTwo("\n", x, y);
    JoinTwo(" ", x, y);
    assert Flatten(listed.content) == x + "\n" + y;
    assert [plain][..0] == [] && [listed][..0] == [];
    assert blocks[..1] == [blocks[0]] && blocks[..1][..0] == [];
    assert BlockTexts(blocks[..1]) == [x];
    assert BlockTexts(blocks) == [x, y];
    assert TextsOf([plain], false) == [] + [x + "\n" + y];
    assert TextsOf([listed], false) == [] + [x, y] == [x, y];
  }

  lemma JoinTwo(separator: string, x: string, y: string)
    ensures JoinWith(separator, [x, y]) == x + separator + y
  {
    assert [x, y][..1] == [x];
  }

  // ---------------------------------------------------------------------------
  // Collisions that change the score
  // ---------------------------------------------------------------------------

  /** Few words, no system prompt, no code blocks, no tools: what is left are keywords and turns. */
  predicate Plain(c: Config, s: Signals) {
    c.weights == DEFAULT_WEIGHTS && s.words <= 2 && c.low > 2 && s.promptLength == 0 && s.blocks == 0 && s.tools == 0
  }

  lemma PlainScores(c: Config, s: Signals)
    requires Plain(c, s)
    ensures s.complex == s.simple == 0 && s.turns <= 1 ==> Score(c, s) == 11
    ensures s.complex == s.simple == 0 && 2 <= s.turns <= 3 ==> Score(c, s) == 13
    ensures s.complex == 1 && s.simple == 0 && s.turns <= 1 ==> Score(c, s) == 45
  {
    var r := RawOf(c, s);
    SixProducts(c.weights, r);
    TruncateMonotone(s.words as real * WORDS_TO_TOKENS_RATIO, 2.0 * WORDS_TO_TOKENS_RATIO);
    assert r.tokens == 10 && r.prompt == 0 && r.code == 0 && r.tools == 0;
    if s.complex == s.simple == 0 && s.turns <= 1 {
      assert r == Raw(10, 0, 30, 10, 0, 0);
    } else if s.complex == s.simple == 0 && 2 <= s.turns <= 3 {
      assert r == Raw(10, 0, 30, 30, 0, 0);
    } else if s.complex == 1 && s.simple == 0 && s.turns <= 1 {
      assert r == Raw(10, 0, 60, 10, 0, 0);
    }
  }

  function Chat(messages: seq<Message>): Request {
    Request(Some(messages), "", [], "auto")
  }

  lemma ChatItems(messages: seq<Message>)
    ensures Items(Chat(messages)) == MessageItems(messages)
  {
  }

  lemma ChatSignals(t: TextTools, c: Config, messages: seq<Message>)
    requires forall i :: 0 <= i < |messages| ==> messages[i].role == USER
    requires t.words(AllText(messages)) <= 2 && t.codeBlocks(AllText(messages)) == []
    requires c.weights == DEFAULT_WEIGHTS && c.low > 2
    ensures Plain(c, SignalsOf(t, c, Chat(messages)))
  {
    NoSystemMessage(messages);
  }

  lemma {:induction false} NoSystemMessage(messages: seq<Message>)
    requires forall i :: 0 <= i < |messages| ==> messages[i].role == USER
    ensures FirstSystem(messages) == ""
  {
    if messages != [] {
      NoSystemMessage(messages[1..]);
    }
  }

  /** Text functions as the library has them on the three texts below: no code blocks, few words, lower case already. */
  ghost predicate Ordinary(t: TextTools, text: string) {
    t.words(text) <= 2 && t.codeBlocks(text) == [] && t.lower(text) == text
  }

  lemma ChatScore(t: TextTools, c: Config, messages: seq<Message>)
    requires forall i :: 0 <= i < |messages| ==> messages[i].role == USER
    requires t.words(AllText(messages)) <= 2 && t.codeBlocks(AllText(messages)) == []
    requires c.weights == DEFAULT_WEIGHTS && c.low > 2 && c.complexKeywords == [] && c.simpleKeywords == []
    ensures UserTurns(messages) <= 1 ==> Score(c, SignalsOf(t, c, Chat(messages))) == 11
    ensures 2 <= UserTurns(messages) <= 3 ==> Score(c, SignalsOf(t, c, Chat(messages))) == 13
  {
    ChatSignals(t, c, messages);
    PlainScores(c, SignalsOf(t, c, Chat(messages)));
  }

  /** With framing bytes: two requests of short texts hash alike, and score 11 and 13. */
  lemma FramingBytesMisscore(t: TextTools, c: Config, x: string, y: string)
    requires c.weights == DEFAULT_WEIGHTS && c.low > 2 && c.complexKeywords == [] && c.simpleKeywords == []
    requires Ordinary(t, Disguised(x, y)) && Ordinary(t, x + " " + y)
    ensures var one := Chat([Message(USER, Text(Disguised(x, y)))]);
            var two := Chat([Message(USER, Text(x)), Message(USER, Text(y))]);
            && Stream(Items(one)) == Stream(Items(two))
            && Score(c, SignalsOf(t, c, one)) == 11 && Score(c, SignalsOf(t, c, two)) == 13
  {
    var a, b, d := Message(USER, Text(x)), Message(USER, Text(y)), Message(USER, Text(Disguised(x, y)));
    FramingStreams(x, y);
    FramingBytesCollide(x, y);
    TextOfOne(d);
    TextOfTwo(a, b);
    ChatScore(t, c, [d]);
    ChatScore(t, c, [a, b]);
  }

  lemma FramingStreams(x: string, y: string)
    ensures Stream(Items(Chat([Message(USER, Text(Disguised(x, y)))]))) ==
            Stream(Items(Chat([Message(USER, Text(x)), Message(USER, Text(y))])))
  {
    var a, b, d := Message(USER, Text(x)), Message(USER, Text(y)), Message(USER, Text(Disguised(x, y)));
    FramingBytesCollide(x, y);
    ChatItems([d]);
    ChatItems([a, b]);
    ItemsOfOne(d);
    ItemsOfTwo(a, b);
  }

  lemma ItemsOfOne(m: Message)
    ensures MessageItems([m]) == [ItemOf(m)]
  {
    assert [m][..0] == [];
  }

  lemma ItemsOfTwo(a: Message, b: Message)
    ensures MessageItems([a, b]) == [ItemOf(a), ItemOf(b)]
  {
    assert [a, b][..1] == [a];
    ItemsOfOne(a);
  }

  lemma TextOfOne(m: Message)
    requires m.content.Text?
    ensures AllText([m]) == m.content.text
  {
    assert [m][..0] == [];
    assert TextsOf([m], false) == [] + [m.content.text];
  }

  lemma TextOfTwo(a: Message, b: Message)
    requires a.content.Text? && b.content.Text?
    ensures AllText([a, b]) == a.content.text + " " + b.content.text
  {
    assert [a, b][..1] == [a] && [a][..0] == [];
    assert TextsOf([a], false) == [] + [a.content.text];
    assert TextsOf([a, b], false) == [a.content.text] + [b.content.text] == [a.content.text, b.content.text];
    JoinTwo(" ", a.content.text, b.content.text);
  }

  /** One short message of the user, with "x y" as the only keyword. */
  lemma KeywordScore(t: TextTools, c: Config, m: Message)
    requires c.weights == DEFAULT_WEIGHTS && c.low > 2 && c.complexKeywords == ["x y"] && c.simpleKeywords == []
    requires m.role == USER && Ordinary(t, AllText([m])) && |AllText([m])| == 3
    ensures Score(c, SignalsOf(t, c, Chat([m]))) == if AllText([m]) == "x y" then 45 else 11
  {
    UserTextOfOne(m);
    TurnsOfOne(m);
    OneKeyword("x y", AllText([m]));
    ChatSignals(t, c, [m]);
    PlainScores(c, SignalsOf(t, c, Chat([m])));
  }

  /** With list content: a keyword spanning two blocks is found in the list only; the scores are 11 and 45. */
  lemma ListContentMisscores(t: TextTools, c: Config)
    requires c.weights == DEFAULT_WEIGHTS && c.low > 2 && c.complexKeywords == ["x y"] && c.simpleKeywords == []
    requires Ordinary(t, "x\ny") && Ordinary(t, "x y")
    ensures var plain := Chat([Message(USER, Text("x\ny"))]);
            var listed := Chat([Message(USER, Blocks([TextBlock("x"), TextBlock("y")]))]);
            && Stream(Items(plain)) == Stream(Items(listed))
            && Score(c, SignalsOf(t, c, plain)) == 11 && Score(c, SignalsOf(t, c, listed)) == 45
  {
    var plain, listed := Message(USER, Text("x\ny")), Message(USER, Blocks([TextBlock("x"), TextBlock("y")]));
    ListContentCollides("x", "y");
    assert "x" + "\n" + "y" == "x\ny" && "x" + " " + "y" == "x y" && "x\ny"[1] != "x y"[1];
    ChatItems([plain]);
    ChatItems([listed]);
    KeywordScore(t, c, plain);
    KeywordScore(t, c, listed);
  }

  lemma UserTextOfOne(m: Message)
    requires m.role == USER
    ensures UserText([m]) == AllText([m])
  {
    assert [m][..0] == [];
    assert TextsOf([m], true) == [] + ContentTexts(m.content) && TextsOf([m], false) == [] + ContentTexts(m.content);
  }

  /** A keyword as long as the text is found in it just if it is the text. */
  lemma OneKeyword(keyword: string, text: string)
    requires |keyword| == |text|
    ensures Hits([keyword], text) == if keyword == text then 1 else 0
  {
    assert [keyword][..0] == [];
    assert text[0..][..|keyword|] == text;
  }

  /**
   A system message in a text block hashes like the same message in plain text, but the scorer takes a system
   prompt from plain text only.
   */
  lemma SystemBlocksCollide(x: string)
    ensures var plain, listed := Message(SYSTEM, Text(x)), Message(SYSTEM, Blocks([TextBlock(x)]));
            && Stream(Items(Chat([plain]))) == Stream(Items(Chat([listed])))
            && AllText([plain]) == AllText([listed]) == x && UserText([plain]) == UserText([listed]) == ""
            && SystemPrompt(Chat([plain])) == x && SystemPrompt(Chat([listed])) == ""
  {
    var plain, listed := Message(SYSTEM, Text(x)), Message(SYSTEM, Blocks([TextBlock(x)]));
    FlatBlock(x);
    ItemsOfOne(plain);
    ItemsOfOne(listed);
    ChatItems([plain]);
    ChatItems([listed]);
    TextOfOne(plain);
    SystemText(plain);
    SystemText(listed);
    assert FirstSystem([listed][1..]) == "";
  }

  lemma FlatBlock(x: string)
    ensures Flatten(Blocks([TextBlock(x)])) == x && BlockTexts([TextBlock(x)]) == [x]
  {
    var blocks := [TextBlock(x)];
    assert LinesOf(blocks) == [x];
    assert blocks[..0] == [];
    assert BlockTexts(blocks) == [] + [x];
  }

  /** One system message is all of the text and none of the user's, and opens no turn. */
  lemma SystemText(m: Message)
    requires m.role == SYSTEM
    ensures AllText([m]) == JoinWith(" ", ContentTexts(m.content))
    ensures UserText([m]) == "" && UserTurns([m]) == 0
  {
    assert [m][..0] == [];
    assert TextsOf([m], false) == [] + ContentTexts(m.content) == ContentTexts(m.content);
    assert TextsOf([m], true) == [];
    assert Users([m][..0]) == [];
    assert Users([m]) == Users([m][..0]);
  }

  /** A lone short system message, whatever its prompt is found to be. */
  lemma SystemScore(t: TextTools, c: Config, m: Message)
    requires m.role == SYSTEM && t.words(AllText([m])) <= 2 && t.codeBlocks(AllText([m])) == []
    requires c.weights == DEFAULT_WEIGHTS && c.low > 2 && c.complexKeywords == [] && c.simpleKeywords == []
    ensures var prompt := SystemPrompt(Chat([m]));
            var s := SignalsOf(t, c, Chat([m]));
            && (prompt == "" ==> Score(c, s) == 11)
            && (prompt == "plan" == t.lower("plan") ==> Score(c, s) == 14)
  {
    SystemText(m);
    var s := SignalsOf(t, c, Chat([m]));
    assert s.complex == s.simple == s.turns == s.blocks == s.tools == 0;
    PlanIsOneWord();
    SystemSignals(c, s);
  }

  lemma SystemSignals(c: Config, s: Signals)
    requires c.weights == DEFAULT_WEIGHTS && c.low > 2
    requires s.words <= 2 && s.complex == s.simple == s.turns == s.blocks == s.tools == 0
    ensures s.promptLength == 0 ==> Score(c, s) == 11
    ensures s.promptLength == 4 && s.promptMatches == 1 ==> Score(c, s) == 14
  {
    SixProducts(c.weights, RawOf(c, s));
    TruncateMonotone(s.words as real * WORDS_TO_TOKENS_RATIO, 2.0 * WORDS_TO_TOKENS_RATIO);
    if s.promptLength == 0 {
      assert RawOf(c, s) == Raw(10, 0, 30, 10, 0, 0);
    } else if s.promptLength == 4 && s.promptMatches == 1 {
      assert RawOf(c, s) == Raw(10, 15, 30, 10, 0, 0);
    }
  }

  /** The scores of "plan" as a system message are 14 in plain text and 11 in a block. */
  lemma SystemBlocksMisscore(t: TextTools, c: Config)
    requires c.weights == DEFAULT_WEIGHTS && c.low > 2 && c.complexKeywords == [] && c.simpleKeywords == []
    requires Ordinary(t, "plan")
    ensures var plain := Chat([Message(SYSTEM, Text("plan"))]);
            var listed := Chat([Message(SYSTEM, Blocks([TextBlock("plan")]))]);
            && Stream(Items(plain)) == Stream(Items(listed))
            && Score(c, SignalsOf(t, c, plain)) == 14 && Score(c, SignalsOf(t, c, listed)) == 11
  {
    SystemBlocksCollide("plan");
    SystemScore(t, c, Message(SYSTEM, Text("plan")));
    SystemScore(t, c, Message(SYSTEM, Blocks([TextBlock("plan")])));
  }

  lemma PlanIsOneWord()
    ensures Hits(COMPLEXITY_WORDS, "plan") == 1
  {
    var words := COMPLEXITY_WORDS;
    forall i | 0 <= i < 8 ensures Conditions.Substring(words[i], "plan") <==> i == 4 {
      assert "plan"[0..][..4] == "plan";
    }
    HitsSplit(words, "plan", 4);
  }

  /** If one word of the list is in the text, there is one hit. */
  lemma {:induction false} HitsSplit(words: seq<string>, text: string, k: nat)
    requires forall i :: 0 <= i < |words| ==> (Conditions.Substring(words[i], text) <==> i == k)
    ensures Hits(words, text) == if k < |words| then 1 else 0
  {
    if words != [] {
      HitsSplit(words[..|words| - 1], text, k);
    }
  }

  /** An unnamed tool is not hashed, but it is counted. */
  lemma UnnamedToolsCollide(t: TextTools, c: Config, r: Request)
    ensures var more := r.(tools := r.tools + [Tool("", "")]);
            && Stream(Items(more)) == Stream(Items(r))
            && SignalsOf(t, c, more) == SignalsOf(t, c, r).(tools := |r.tools| + 1)
  {
    var more := r.(tools := r.tools + [Tool("", "")]);
    assert more.tools[..|more.tools| - 1] == r.tools;
  }

  /** So a short message without tools and the same with an unnamed one hash alike, and score 11 and 13. */
  lemma UnnamedToolsMisscore(t: TextTools, c: Config, x: string)
    requires c.weights == DEFAULT_WEIGHTS && c.low > 2 && c.complexKeywords == [] && c.simpleKeywords == []
    requires Ordinary(t, x)
    ensures var r := Chat([Message(USER, Text(x))]);
            var more := r.(tools := [Tool("", "")]);
            && Stream(Items(more)) == Stream(Items(r))
            && Score(c, SignalsOf(t, c, r)) == 11 && Score(c, SignalsOf(t, c, more)) == 13
  {
    var message := Message(USER, Text(x));
    var r := Chat([message]);
    TextOfOne(message);
    TurnsOfOne(message);
    ChatScore(t, c, [message]);
    ChatSignals(t, c, [message]);
    assert r.tools + [Tool("", "")] == [Tool("", "")];
    UnnamedToolsCollide(t, c, r);
    OneToolScores(c, SignalsOf(t, c, r));
  }

  lemma OneToolScores(c: Config, s: Signals)
    requires Plain(c, s) && s.complex == s.simple == 0 && s.turns <= 1
    ensures Score(c, s.(tools := 1)) == 13
  {
    var one := s.(tools := 1);
    SixProducts(c.weights, RawOf(c, one));
    TruncateMonotone(s.words as real * WORDS_TO_TOKENS_RATIO, 2.0 * WORDS_TO_TOKENS_RATIO);
    assert RawOf(c, one) == Raw(10, 0, 30, 10, 0, 40);
  }
}
