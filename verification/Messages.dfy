/** Chat requests, and the text that scoring, rules and the cache read out of them. */
module Messages {
  import opened Prelude

  /** A content block: text, or anything else with the text it is rendered as. */
  datatype Block = TextBlock(text: string) | OtherBlock(rendered: string)

  datatype Content = Text(text: string) | Blocks(blocks: seq<Block>) | OtherContent(rendered: string)

  datatype Message = Message(role: string, content: Content)

  /** Tool declarations carry a name at the top or inside `function`; an absent name is empty. */
  datatype Tool = Tool(topName: string, functionName: string)

  /** `messages` is absent when the request has no such key. */
  datatype Request = Request(messages: Option<seq<Message>>, system: string, tools: seq<Tool>, model: string)

  const USER := "user"
  const SYSTEM := "system"

  function MessagesOf(r: Request): seq<Message> {
    if r.messages.Some? then r.messages.value else []
  }

  // ---------------------------------------------------------------------------
  // What the extractors compute
  // ---------------------------------------------------------------------------

  function BlockTexts(blocks: seq<Block>): seq<string> {
    if blocks == [] then []
    else
      var before, last := BlockTexts(blocks[..|blocks| - 1]), blocks[|blocks| - 1];
      if last.TextBlock? then before + [last.text] else before
  }

  function ContentTexts(content: Content): seq<string> {
    match content
    case Text(text) => [text]
    case Blocks(blocks) => BlockTexts(blocks)
    case OtherContent(_) => []
  }

  function TextsOf(messages: seq<Message>, userOnly: bool): seq<string> {
    if messages == [] then []
    else
      var before, last := TextsOf(messages[..|messages| - 1], userOnly), messages[|messages| - 1];
      if userOnly && last.role != USER then before else before + ContentTexts(last.content)
  }

  function JoinWith(separator: string, parts: seq<string>): string {
    if parts == [] then ""
    else if |parts| == 1 then parts[0]
    else JoinWith(separator, parts[..|parts| - 1]) + separator + parts[|parts| - 1]
  }

  function AllText(messages: seq<Message>): string {
    JoinWith(" ", TextsOf(messages, false))
  }

  function UserText(messages: seq<Message>): string {
    JoinWith(" ", TextsOf(messages, true))
  }

  function FirstSystem(messages: seq<Message>): string {
    if messages == [] then ""
    else if messages[0].role == SYSTEM && messages[0].content.Text? then messages[0].content.text
    else FirstSystem(messages[1..])
  }

  function SystemPrompt(r: Request): string {
    if r.system != "" then r.system else FirstSystem(MessagesOf(r))
  }

  function UserTurns(messages: seq<Message>): nat {
    |Users(messages)|
  }

  function Users(messages: seq<Message>): seq<Message> {
    if messages == [] then []
    else if messages[|messages| - 1].role == USER then Users(messages[..|messages| - 1]) + [messages[|messages| - 1]]
    else Users(messages[..|messages| - 1])
  }

  // ---------------------------------------------------------------------------
  // The extractors
  // ---------------------------------------------------------------------------

  /** The two extraction loops differ only in skipping other roles. */
  method ExtractText(messages: seq<Message>, userOnly: bool) returns (text: string)
    ensures text == if userOnly then UserText(messages) else AllText(messages)
  {
    var parts: seq<string> := [];
    for i := 0 to |messages|
      invariant parts == TextsOf(messages[..i], userOnly)
    {
      var message := messages[i];
      assert messages[..i + 1][..i] == messages[..i];
      if userOnly && message.role != USER {
        continue;
      }
      match message.content
      case Text(text) => parts := parts + [text];
      case Blocks(blocks) =>
        ghost var before := parts;
        for k := 0 to |blocks|
          invariant parts == before + BlockTexts(blocks[..k])
        {
          assert blocks[..k + 1][..k] == blocks[..k];
          if blocks[k].TextBlock? {
            parts := parts + [blocks[k].text];
          }
        }
        assert blocks[..|blocks|] == blocks;
      case OtherContent(_) =>
    }
    assert messages[..|messages|] == messages;
    text := JoinWith(" ", parts);
  }

  method ExtractSystemPrompt(r: Request) returns (prompt: string)
    ensures prompt == SystemPrompt(r)
  {
    if r.system != "" {
      return r.system;
    }
    var messages := MessagesOf(r);
    for i := 0 to |messages|
      invariant FirstSystem(messages[i..]) == FirstSystem(messages)
    {
      assert messages[i..][1..] == messages[i + 1..];
      if messages[i].role == SYSTEM && messages[i].content.Text? {
        return messages[i].content.text;
      }
    }
    prompt := "";
  }

  /** Text comes message by message, in order; of all messages, or of the user's. */
  lemma {:induction false} TextsOfBoth(a: seq<Message>, b: seq<Message>, userOnly: bool)
    ensures TextsOf(a + b, userOnly) == TextsOf(a, userOnly) + TextsOf(b, userOnly)
  {
    if b == [] {
      assert a + b == a;
    } else {
      var before, last := b[..|b| - 1], b[|b| - 1];
      TextsOfBoth(a, before, userOnly);
      assert (a + b)[..|a + b| - 1] == a + before && (a + b)[|a + b| - 1] == last;
      Associates(TextsOf(a, userOnly), TextsOf(before, userOnly), ContentTexts(last.content));
    }
  }

  lemma Associates(a: seq<string>, b: seq<string>, c: seq<string>)
    ensures a + b + c == a + (b + c)
  {
  }

  /** One message gives its plain text, or the texts of its text blocks in order, or nothing. */
  lemma TextsOfMessage(m: Message, userOnly: bool, x: string)
    ensures userOnly && m.role != USER ==> TextsOf([m], userOnly) == []
    ensures (!userOnly || m.role == USER) && m.content.Text? ==> TextsOf([m], userOnly) == [m.content.text]
    ensures (!userOnly || m.role == USER) && m.content.Blocks? ==>
              (x in TextsOf([m], userOnly) <==> TextBlock(x) in m.content.blocks)
    ensures m.content.OtherContent? ==> TextsOf([m], userOnly) == []
  {
    assert [m][..0] == [];
    assert TextsOf([m], userOnly) == if userOnly && m.role != USER then [] else [] + ContentTexts(m.content);
    if m.content.Blocks? {
      BlockTextsExactly(m.content.blocks, x);
    }
  }

  lemma {:induction false} BlockTextsExactly(blocks: seq<Block>, x: string)
    ensures x in BlockTexts(blocks) <==> TextBlock(x) in blocks
  {
    if blocks != [] {
      BlockTextsExactly(blocks[..|blocks| - 1], x);
      assert blocks == blocks[..|blocks| - 1] + [blocks[|blocks| - 1]];
    }
  }

  lemma {:induction false} BlockTextsInOrder(a: seq<Block>, b: seq<Block>)
    ensures BlockTexts(a + b) == BlockTexts(a) + BlockTexts(b)
  {
    if b == [] {
      assert a + b == a;
    } else {
      BlockTextsInOrder(a, b[..|b| - 1]);
      assert (a + b)[..|a + b| - 1] == a + b[..|b| - 1];
    }
  }

  predicate PlainSystem(m: Message) {
    m.role == SYSTEM && m.content.Text?
  }

  /** The prompt of the request, if it has one; else the first plain system message; else nothing. */
  lemma SystemPromptExactly(r: Request)
    ensures r.system != "" ==> SystemPrompt(r) == r.system
    ensures r.system == "" ==>
              && var messages := MessagesOf(r);
              && (forall i :: 0 <= i < |messages| && PlainSystem(messages[i])
                              && (forall j :: 0 <= j < i ==> !PlainSystem(messages[j])) ==>
                    SystemPrompt(r) == messages[i].content.text)
              && ((forall i :: 0 <= i < |messages| ==> !PlainSystem(messages[i])) ==> SystemPrompt(r) == "")
  {
    FirstSystemExactly(MessagesOf(r));
  }

  lemma {:induction false} FirstSystemExactly(messages: seq<Message>)
    ensures forall i :: 0 <= i < |messages| && PlainSystem(messages[i])
                        && (forall j :: 0 <= j < i ==> !PlainSystem(messages[j])) ==>
              FirstSystem(messages) == messages[i].content.text
    ensures (forall i :: 0 <= i < |messages| ==> !PlainSystem(messages[i])) ==> FirstSystem(messages) == ""
  {
    if messages != [] && !PlainSystem(messages[0]) {
      var rest := messages[1..];
      FirstSystemExactly(rest);
      assert forall j :: 0 <= j < |rest| ==> rest[j] == messages[j + 1];
      forall i | 0 <= i < |messages| && PlainSystem(messages[i]) && forall j :: 0 <= j < i ==> !PlainSystem(messages[j])
        ensures FirstSystem(messages) == messages[i].content.text
      {
        assert PlainSystem(rest[i - 1]) && forall j :: 0 <= j < i - 1 ==> !PlainSystem(rest[j]);
      }
    }
  }

  // ---------------------------------------------------------------------------
  // Requests whose user text is their last message
  // ---------------------------------------------------------------------------

  lemma {:induction false} NoUserNoText(messages: seq<Message>)
    requires forall m :: m in messages ==> m.role != USER
    ensures TextsOf(messages, true) == []
  {
    if messages != [] {
      NoUserNoText(messages[..|messages| - 1]);
    }
  }

  /** If the only user message is the last one and is plain text, the joined user text is that text. */
  lemma OnlyLastUser(messages: seq<Message>)
    requires messages != [] && messages[|messages| - 1].role == USER && messages[|messages| - 1].content.Text?
    requires forall i :: 0 <= i < |messages| - 1 ==> messages[i].role != USER
    ensures UserText(messages) == messages[|messages| - 1].content.text
  {
    var before := messages[..|messages| - 1];
    NoUserNoText(before);
    assert TextsOf(messages, true) == [] + [messages[|messages| - 1].content.text];
  }
}
