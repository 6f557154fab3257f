/** The byte stream a request is hashed from, and what equal streams say about two requests. */
module Fingerprint {
  import opened Prelude
  import opened Messages
  import opened StaticScore
  import opened ScoreInputs

  /** A byte of the hashed stream. */
  type Byte = int

  // ---------------------------------------------------------------------------
  // UTF-8
  // ---------------------------------------------------------------------------

  function Utf8Char(c: char): (bytes: seq<Byte>)
    ensures bytes != []
  {
    var n := c as int;
    if n < 0x80 then [n]
    else if n < 0x800 then [0xC0 + n / 64, 0x80 + n % 64]
    else if n < 0x1_0000 then [0xE0 + n / 4096, 0x80 + n / 64 % 64, 0x80 + n % 64]
    else [0xF0 + n / 262144, 0x80 + n / 4096 % 64, 0x80 + n / 64 % 64, 0x80 + n % 64]
  }

  /** Only the first 128 characters are encoded by small bytes, and by themselves. */
  lemma BytesOfChar(c: char)
    ensures forall b :: b in Utf8Char(c) ==> 0 <= b < 256
    ensures c as int < 0x80 ==> Utf8Char(c) == [c as int]
    ensures c as int >= 0x80 ==> forall b :: b in Utf8Char(c) ==> b >= 0x80
  {
  }

  function Utf8(text: string): seq<Byte> {
    if text == "" then [] else Utf8Char(text[0]) + Utf8(text[1..])
  }

  /** The character a well-formed encoding starts with, and the number of its bytes. */
  function DecodeChar(bytes: seq<Byte>): (int, nat)
    requires bytes != []
  {
    var b := bytes[0];
    if b < 0x80 then (b, 1)
    else if b < 0xE0 && |bytes| >= 2 then ((b - 0xC0) * 64 + (bytes[1] - 0x80), 2)
    else if b < 0xF0 && |bytes| >= 3 then ((b - 0xE0) * 4096 + (bytes[1] - 0x80) * 64 + (bytes[2] - 0x80), 3)
    else if |bytes| >= 4 then
        ((b - 0xF0) * 262144 + (bytes[1] - 0x80) * 4096 + (bytes[2] - 0x80) * 64 + (bytes[3] - 0x80), 4)
    else (0, 0)
  }

  lemma Base64Digits(n: nat)
    ensures n == n / 64 * 64 + n % 64
    ensures n / 64 == n / 4096 * 64 + n / 64 % 64
    ensures n / 4096 == n / 262144 * 64 + n / 4096 % 64
  {
  }

  /** Decoding an encoded character, whatever follows, gives it back. */
  lemma DecodeEncoded(c: char, rest: seq<Byte>)
    ensures DecodeChar(Utf8Char(c) + rest) == (c as int, |Utf8Char(c)|)
  {
    Base64Digits(c as int);
  }

  lemma SameFirstChar(c: char, d: char, x: seq<Byte>, y: seq<Byte>)
    requires Utf8Char(c) + x == Utf8Char(d) + y
    ensures c == d && x == y
  {
    DecodeEncoded(c, x);
    DecodeEncoded(d, y);
    SameTail(Utf8Char(c), x, y);
  }

  /** Text without the two framing characters. */
  predicate Clean(text: string) {
    forall i :: 0 <= i < |text| ==> text[i] as int > 1
  }

  lemma FirstByte(s: string, mark: Byte, x: seq<Byte>)
    ensures (Utf8(s) + [mark] + x)[0] == if s == "" then mark else Utf8Char(s[0])[0]
    ensures s != "" ==> Utf8(s) + [mark] + x == Utf8Char(s[0]) + (Utf8(s[1..]) + [mark] + x)
    ensures s != "" && Clean(s) ==> Utf8Char(s[0])[0] > 1 && Clean(s[1..])
  {
    if s != "" {
      BytesOfChar(s[0]);
    }
  }

  /** A clean text ends where the first framing byte is, so text and remainder can both be read back. */
  lemma {:induction false} ReadBack(s: string, t: string, mark: Byte, x: seq<Byte>, y: seq<Byte>)
    requires Clean(s) && Clean(t) && mark <= 1 && Utf8(s) + [mark] + x == Utf8(t) + [mark] + y
    ensures s == t && x == y
    decreases |s|
  {
    FirstByte(s, mark, x);
    FirstByte(t, mark, y);
    assert s == "" <==> t == "";
    if s == "" {
      assert Utf8(s) + [mark] + x == [mark] + x && Utf8(t) + [mark] + y == [mark] + y;
      SameTail([mark], x, y);
    } else {
      SameFirstChar(s[0], t[0], Utf8(s[1..]) + [mark] + x, Utf8(t[1..]) + [mark] + y);
      ReadBack(s[1..], t[1..], mark, x, y);
      assert s == [s[0]] + s[1..] && t == [t[0]] + t[1..];
    }
  }

  // ---------------------------------------------------------------------------
  // The stream
  // ---------------------------------------------------------------------------

  /** What is hashed of a request, in order. */
  datatype Item = MessageItem(role: string, content: string) | SystemItem(text: string) | ToolItem(name: string)

  function BlockText(b: Block): string {
    match b
    case TextBlock(text) => text
    case OtherBlock(rendered) => rendered
  }

  function LinesOf(blocks: seq<Block>): seq<string> {
    seq(|blocks|, i requires 0 <= i < |blocks| => BlockText(blocks[i]))
  }

  function Flatten(content: Content): string {
    match content
    case Text(text) => text
    case Blocks(blocks) => JoinWith("\n", LinesOf(blocks))
    case OtherContent(rendered) => rendered
  }

  function ToolName(tool: Tool): string {
    if tool.topName != "" then tool.topName else tool.functionName
  }

  function MessageItems(messages: seq<Message>): seq<Item> {
    if messages == [] then [] else MessageItems(messages[..|messages| - 1]) + [ItemOf(messages[|messages| - 1])]
  }

  function ItemOf(m: Message): Item {
    MessageItem(m.role, Flatten(m.content))
  }

  function SystemItems(system: string): seq<Item> {
    if system == "" then [] else [SystemItem(system)]
  }

  function ToolItems(tools: seq<Tool>): seq<Item> {
    if tools == [] then []
    else
      var before, name := ToolItems(tools[..|tools| - 1]), ToolName(tools[|tools| - 1]);
      if name == "" then before else before + [ToolItem(name)]
  }

  function Items(r: Request): seq<Item> {
    MessageItems(MessagesOf(r)) + SystemItems(r.system) + ToolItems(r.tools)
  }

  /** `M`, role, content; `S`, text; `T`, name: fields closed by the bytes 0 and 1. */
  function Frame(item: Item): (bytes: seq<Byte>)
    ensures bytes != []
  {
    match item
    case MessageItem(role, content) => [0x4D, 0] + Utf8(role) + [0] + Utf8(content) + [1]
    case SystemItem(text) => [0x53, 0] + Utf8(text) + [1]
    case ToolItem(name) => [0x54, 0] + Utf8(name) + [1]
  }

  function Stream(items: seq<Item>): seq<Byte> {
    if items == [] then [] else Stream(items[..|items| - 1]) + Frame(items[|items| - 1])
  }

  lemma {:induction false} StreamCons(items: seq<Item>)
    requires items != []
    ensures Stream(items) == Frame(items[0]) + Stream(items[1..])
  {
    var n, rest := |items|, items[1..];
    if n == 1 {
      assert items[..0] == [] && rest == [];
    } else {
      var before, last := Stream(rest[..n - 2]), Frame(items[n - 1]);
      StreamCons(items[..n - 1]);
      assert items[..n - 1][1..] == rest[..n - 2];
      assert Stream(items[..n - 1]) == Frame(items[0]) + before;
      assert rest[n - 2] == items[n - 1] && Stream(rest) == before + last;
      Regroup(Frame(items[0]), before, last);
    }
  }

  lemma Regroup(a: seq<Byte>, b: seq<Byte>, c: seq<Byte>)
    ensures a + b + c == a + (b + c)
  {
  }

  /** The hash updates of the messages, one frame each. */
  method FeedMessages(messages: seq<Message>) returns (bytes: seq<Byte>)
    ensures bytes == Stream(MessageItems(messages))
  {
    bytes := [];
    for i := 0 to |messages|
      invariant bytes == Stream(MessageItems(messages[..i]))
    {
      assert messages[..i + 1][..i] == messages[..i];
      StreamSnoc(MessageItems(messages[..i]), ItemOf(messages[i]));
      bytes := bytes + Frame(ItemOf(messages[i]));
    }
    assert messages[..|messages|] == messages;
  }

  /** The hash updates of the tools, after what was fed before: unnamed ones are passed over. */
  method FeedTools(tools: seq<Tool>, fed: seq<Byte>, ghost items: seq<Item>) returns (bytes: seq<Byte>)
    requires fed == Stream(items)
    ensures bytes == Stream(items + ToolItems(tools))
  {
    bytes := fed;
    assert items + [] == items;
    for i := 0 to |tools|
      invariant bytes == Stream(items + ToolItems(tools[..i]))
    {
      ToolStep(items, tools, i);
      var name := ToolName(tools[i]);
      if name != "" {
        bytes := bytes + Frame(ToolItem(name));
      }
    }
    assert tools[..|tools|] == tools;
  }

  lemma ToolStep(items: seq<Item>, tools: seq<Tool>, i: nat)
    requires i < |tools|
    ensures var name, before := ToolName(tools[i]), Stream(items + ToolItems(tools[..i]));
            Stream(items + ToolItems(tools[..i + 1])) == if name == "" then before else before + Frame(ToolItem(name))
  {
    assert tools[..i + 1][..i] == tools[..i];
    var name, before := ToolName(tools[i]), ToolItems(tools[..i]);
    if name != "" {
      assert ToolItems(tools[..i + 1]) == before + [ToolItem(name)];
      assert items + (before + [ToolItem(name)]) == (items + before) + [ToolItem(name)];
      StreamSnoc(items + before, ToolItem(name));
    }
  }

  /** Everything `fingerprint_request` feeds to the hash, in order. */
  method FeedHash(r: Request) returns (bytes: seq<Byte>)
    ensures bytes == Stream(Items(r))
  {
    bytes := FeedMessages(MessagesOf(r));
    ghost var items := MessageItems(MessagesOf(r));
    if r.system != "" {
      StreamSnoc(items, SystemItem(r.system));
      bytes := bytes + Frame(SystemItem(r.system));
    } else {
      assert items + SystemItems(r.system) == items;
    }
    bytes := FeedTools(r.tools, bytes, items + SystemItems(r.system));
  }

  lemma StreamSnoc(items: seq<Item>, item: Item)
    ensures Stream(items + [item]) == Stream(items) + Frame(item)
  {
    assert (items + [item])[..|items|] == items;
  }

  // ---------------------------------------------------------------------------
  // Unique decodability
  // ---------------------------------------------------------------------------

  predicate CleanItem(item: Item) {
    match item
    case MessageItem(role, content) => Clean(role) && Clean(content)
    case SystemItem(text) => Clean(text)
    case ToolItem(name) => Clean(name)
  }

  ghost predicate AllClean(items: seq<Item>) {
    forall i :: 0 <= i < |items| ==> CleanItem(items[i])
  }

  lemma SameFirstMessage(role: string, content: string, role': string, content': string, x: seq<Byte>, y: seq<Byte>)
    requires Clean(role) && Clean(content) && Clean(role') && Clean(content')
    requires Frame(MessageItem(role, content)) + x == Frame(MessageItem(role', content')) + y
    ensures role == role' && content == content' && x == y
  {
    var p, q := Utf8(content) + [1] + x, Utf8(content') + [1] + y;
    MessageFrame(Utf8(role), Utf8(content), x);
    MessageFrame(Utf8(role'), Utf8(content'), y);
    SameTail([0x4D, 0], Utf8(role) + [0] + p, Utf8(role') + [0] + q);
    ReadBack(role, role', 0, p, q);
    ReadBack(content, content', 1, x, y);
  }

  lemma MessageFrame(role: seq<Byte>, content: seq<Byte>, x: seq<Byte>)
    ensures [0x4D, 0] + role + [0] + content + [1] + x == [0x4D, 0] + (role + [0] + (content + [1] + x))
  {
  }

  lemma SameFirstText(tag: Byte, s: string, t: string, x: seq<Byte>, y: seq<Byte>)
    requires Clean(s) && Clean(t) && [tag, 0] + Utf8(s) + [1] + x == [tag, 0] + Utf8(t) + [1] + y
    ensures s == t && x == y
  {
    assert [tag, 0] + Utf8(s) + [1] + x == [tag, 0] + (Utf8(s) + [1] + x);
    assert [tag, 0] + Utf8(t) + [1] + y == [tag, 0] + (Utf8(t) + [1] + y);
    SameTail([tag, 0], Utf8(s) + [1] + x, Utf8(t) + [1] + y);
    ReadBack(s, t, 1, x, y);
  }

  lemma SameFirstFrame(a: Item, b: Item, x: seq<Byte>, y: seq<Byte>)
    requires CleanItem(a) && CleanItem(b) && Frame(a) + x == Frame(b) + y
    ensures a == b && x == y
  {
    assert (Frame(a) + x)[0] == Frame(a)[0] && (Frame(b) + y)[0] == Frame(b)[0];
    match (a, b)
    case (MessageItem(role, content), MessageItem(role', content')) =>
        SameFirstMessage(role, content, role', content', x, y);
    case (SystemItem(s), SystemItem(t)) => SameFirstText(0x53, s, t, x, y);
    case (ToolItem(s), ToolItem(t)) => SameFirstText(0x54, s, t, x, y);
    case _ => assert false;
  }

  lemma OnlyEmptyStream(items: seq<Item>)
    ensures Stream(items) == [] <==> items == []
  {
  }

  lemma DecodeStep(a: seq<Item>, b: seq<Item>)
    requires a != [] && b != [] && AllClean(a) && AllClean(b) && Stream(a) == Stream(b)
    ensures a[0] == b[0] && Stream(a[1..]) == Stream(b[1..])
  {
    StreamCons(a);
    StreamCons(b);
    SameFirstFrame(a[0], b[0], Stream(a[1..]), Stream(b[1..]));
  }

  /** Clean items can be read back from their stream. */
  lemma {:induction false} UniquelyDecodable(a: seq<Item>, b: seq<Item>)
    requires AllClean(a) && AllClean(b) && Stream(a) == Stream(b)
    ensures a == b
  {
    OnlyEmptyStream(a);
    OnlyEmptyStream(b);
    if a != [] {
      DecodeStep(a, b);
      UniquelyDecodable(a[1..], b[1..]);
      assert a == [a[0]] + a[1..] && b == [b[0]] + b[1..];
    }
  }

  // ---------------------------------------------------------------------------
  // From items to requests
  // ---------------------------------------------------------------------------

  /** The domain of the claim: plain text without the bytes 0 and 1, and a name on every tool. */
  ghost predicate InDomain(r: Request) {
    && PlainText(r) && CleanRequest(r)
    && (forall i :: 0 <= i < |r.tools| ==> ToolName(r.tools[i]) != "")
  }

  ghost predicate CleanRequest(r: Request) {
    && (forall i :: 0 <= i < |MessagesOf(r)| ==>
        Clean(MessagesOf(r)[i].role) && Clean(Flatten(MessagesOf(r)[i].content)))
    && Clean(r.system)
    && (forall i :: 0 <= i < |r.tools| ==> Clean(ToolName(r.tools[i])))
  }

  lemma {:induction false} MessageItemsAre(messages: seq<Message>)
    ensures |MessageItems(messages)| == |messages|
    ensures forall i :: 0 <= i < |messages| ==> MessageItems(messages)[i] == ItemOf(messages[i])
  {
    if messages != [] {
      MessageItemsAre(messages[..|messages| - 1]);
    }
  }

  function ToolNames(tools: seq<Tool>): seq<string> {
    if tools == [] then []
    else
      var before, name := ToolNames(tools[..|tools| - 1]), ToolName(tools[|tools| - 1]);
      if name == "" then before else before + [name]
  }

  lemma {:induction false} ToolItemsAre(tools: seq<Tool>)
    ensures |ToolItems(tools)| == |ToolNames(tools)| <= |tools|
    ensures forall i :: 0 <= i < |ToolItems(tools)| ==> ToolItems(tools)[i] == ToolItem(ToolNames(tools)[i])
    ensures forall i :: 0 <= i < |ToolNames(tools)| ==>
            exists k :: 0 <= k < |tools| && ToolName(tools[k]) == ToolNames(tools)[i]
    ensures |ToolNames(tools)| == |tools| <==> forall k :: 0 <= k < |tools| ==> ToolName(tools[k]) != ""
  {
    if tools != [] {
      var before, last := tools[..|tools| - 1], |tools| - 1;
      ToolItemsAre(before);
      forall i | 0 <= i < |ToolNames(tools)|
        ensures exists k :: 0 <= k < |tools| && ToolName(tools[k]) == ToolNames(tools)[i]
      {
        if i < |ToolNames(before)| {
          var k :| 0 <= k < |before| && ToolName(before[k]) == ToolNames(before)[i];
          assert tools[k] == before[k];
        } else {
          assert ToolName(tools[last]) == ToolNames(tools)[i];
        }
      }
      assert forall k :: 0 <= k < last ==> before[k] == tools[k];
    }
  }

  /** Blocks are hashed one to a line, in order: a text block as its text, any other block as it is rendered. */
  lemma FlattenExactly(blocks: seq<Block>, last: Block, x: string)
    ensures Flatten(Text(x)) == x && Flatten(Blocks([TextBlock(x)])) == x && Flatten(Blocks([OtherBlock(x)])) == x
    ensures Flatten(OtherContent(x)) == x && Flatten(Blocks([])) == ""
    ensures blocks != [] ==>
              Flatten(Blocks(blocks + [last])) == Flatten(Blocks(blocks)) + "\n" + Flatten(Blocks([last]))
  {
    var more := blocks + [last];
    var texts, all := LinesOf(blocks), LinesOf(more);
    assert all[..|blocks|] == texts && all[|blocks|] == BlockText(last);
    assert LinesOf([last]) == [BlockText(last)];
    assert LinesOf([TextBlock(x)]) == [x] && LinesOf([OtherBlock(x)]) == [x];
  }

  /** So requests that differ in a block the scorer passes over, such as an image, hash apart. */
  lemma OtherBlocksTellApart(role: string, x: string, y: string)
    requires Clean(role) && Clean(x) && Clean(y)
    ensures var a := Request(Some([Message(role, Blocks([OtherBlock(x)]))]), "", [], "");
            var b := Request(Some([Message(role, Blocks([OtherBlock(y)]))]), "", [], "");
            Stream(Items(a)) == Stream(Items(b)) <==> x == y
  {
    var m, m' := Message(role, Blocks([OtherBlock(x)])), Message(role, Blocks([OtherBlock(y)]));
    FlattenExactly([], OtherBlock(x), x);
    FlattenExactly([], OtherBlock(y), y);
    MessageItemsAre([m]);
    MessageItemsAre([m']);
    var a, b := Request(Some([m]), "", [], ""), Request(Some([m']), "", [], "");
    assert CleanRequest(a) && CleanRequest(b) && Clean("");
    EqualStreamsExactly(a, b);
    assert MessageItems([m])[0] == MessageItem(role, x) && MessageItems([m'])[0] == MessageItem(role, y);
  }

  /** A tool is known by its top-level name, and by its function's only if it has none. */
  lemma ToolNameExactly(top: string, inner: string, other: string)
    ensures top != "" ==> ToolNames([Tool(top, inner)]) == ToolNames([Tool(top, other)]) == [top]
    ensures inner != "" ==> ToolNames([Tool("", inner)]) == [inner]
    ensures ToolNames([Tool("", "")]) == []
  {
    forall tool: Tool ensures ToolNames([tool]) == if ToolName(tool) == "" then [] else [ToolName(tool)] {
      assert [tool][..0] == [];
    }
  }

  lemma ItemsAreClean(r: Request)
    requires CleanRequest(r)
    ensures AllClean(Items(r))
  {
    MessageItemsAre(MessagesOf(r));
    ToolItemsAre(r.tools);
    var m, s, t := MessageItems(MessagesOf(r)), SystemItems(r.system), ToolItems(r.tools);
    forall i | 0 <= i < |t| ensures CleanItem(t[i]) {
      var k :| 0 <= k < |r.tools| && ToolName(r.tools[k]) == ToolNames(r.tools)[i];
    }
    assert AllClean(m) && AllClean(s) && AllClean(t);
  }

  function MessageRun(items: seq<Item>): nat {
    if items == [] || !items[0].MessageItem? then 0 else 1 + MessageRun(items[1..])
  }

  lemma {:induction false} RunOfMessages(m: seq<Item>, rest: seq<Item>)
    requires forall i :: 0 <= i < |m| ==> m[i].MessageItem?
    requires rest != [] ==> !rest[0].MessageItem?
    ensures MessageRun(m + rest) == |m|
  {
    if m == [] {
      assert m + rest == rest;
    } else {
      assert (m + rest)[1..] == m[1..] + rest;
      RunOfMessages(m[1..], rest);
    }
  }

  /** The messages end at the first item of another kind. */
  lemma PartsAgree(m: seq<Item>, rest: seq<Item>, m': seq<Item>, rest': seq<Item>)
    requires (forall i :: 0 <= i < |m| ==> m[i].MessageItem?) && (forall i :: 0 <= i < |m'| ==> m'[i].MessageItem?)
    requires (rest != [] ==> !rest[0].MessageItem?) && (rest' != [] ==> !rest'[0].MessageItem?)
    requires m + rest == m' + rest'
    ensures m == m' && rest == rest'
  {
    RunOfMessages(m, rest);
    RunOfMessages(m', rest');
    SameCut(m, rest, m', rest');
  }

  lemma KindsOfItems(r: Request)
    ensures forall i :: 0 <= i < |MessageItems(MessagesOf(r))| ==> MessageItems(MessagesOf(r))[i].MessageItem?
    ensures forall i :: 0 <= i < |ToolItems(r.tools)| ==> ToolItems(r.tools)[i].ToolItem?
    ensures var rest := SystemItems(r.system) + ToolItems(r.tools);
            (rest != [] ==> !rest[0].MessageItem?) && Items(r) == MessageItems(MessagesOf(r)) + rest
  {
    MessageItemsAre(MessagesOf(r));
    ToolItemsAre(r.tools);
  }

  lemma ItemsDetermine(a: Request, b: Request)
    requires Items(a) == Items(b)
    ensures MessageItems(MessagesOf(a)) == MessageItems(MessagesOf(b))
    ensures a.system == b.system
    ensures ToolItems(a.tools) == ToolItems(b.tools)
  {
    KindsOfItems(a);
    KindsOfItems(b);
    PartsAgree(MessageItems(MessagesOf(a)), SystemItems(a.system) + ToolItems(a.tools),
               MessageItems(MessagesOf(b)), SystemItems(b.system) + ToolItems(b.tools));
    SystemsAgree(a.system, b.system, ToolItems(a.tools), ToolItems(b.tools));
  }

  lemma SameToolItems(a: seq<Tool>, b: seq<Tool>)
    ensures ToolItems(a) == ToolItems(b) <==> ToolNames(a) == ToolNames(b)
  {
    ToolItemsAre(a);
    ToolItemsAre(b);
    if ToolItems(a) == ToolItems(b) {
      forall i | 0 <= i < |ToolNames(a)| ensures ToolNames(a)[i] == ToolNames(b)[i] {
        assert ToolItems(a)[i] == ToolItems(b)[i];
      }
    }
  }

  lemma SystemsAgree(s: string, s': string, t: seq<Item>, t': seq<Item>)
    requires SystemItems(s) + t == SystemItems(s') + t'
    requires (forall i :: 0 <= i < |t| ==> t[i].ToolItem?) && (forall i :: 0 <= i < |t'| ==> t'[i].ToolItem?)
    ensures s == s' && t == t'
  {
    var x, y := SystemItems(s) + t, SystemItems(s') + t';
    if s == "" {
      assert x == t;
    } else {
      assert x[0] == SystemItem(s) && x[1..] == t;
    }
    if s' == "" {
      assert y == t';
    } else {
      assert y[0] == SystemItem(s') && y[1..] == t';
    }
  }

  /**
   Requests without framing bytes hash alike exactly when roles, flattened contents, system text and tool names are
   equal.
   */
  lemma EqualStreamsExactly(a: Request, b: Request)
    requires CleanRequest(a) && CleanRequest(b)
    ensures Stream(Items(a)) == Stream(Items(b)) <==>
            && MessageItems(MessagesOf(a)) == MessageItems(MessagesOf(b))
            && a.system == b.system && ToolNames(a.tools) == ToolNames(b.tools)
  {
    ItemsAreClean(a);
    ItemsAreClean(b);
    if Stream(Items(a)) == Stream(Items(b)) {
      UniquelyDecodable(Items(a), Items(b));
      ItemsDetermine(a, b);
    }
    SameToolItems(a.tools, b.tools);
  }

  ghost predicate PlainText(r: Request) {
    forall i :: 0 <= i < |MessagesOf(r)| ==> MessagesOf(r)[i].content.Text?
  }

  lemma SameItemsSameMessages(a: Request, b: Request)
    requires PlainText(a) && PlainText(b) && MessageItems(MessagesOf(a)) == MessageItems(MessagesOf(b))
    ensures MessagesOf(a) == MessagesOf(b)
  {
    var m, m' := MessagesOf(a), MessagesOf(b);
    MessageItemsAre(m);
    MessageItemsAre(m');
    forall i | 0 <= i < |m| ensures m[i] == m'[i] {
      assert ItemOf(m[i]) == MessageItems(m)[i] == MessageItems(m')[i] == ItemOf(m'[i]);
    }
  }

  /** Equal items have equal roles, so as many user turns. */
  lemma {:induction false} SameItemsSameTurns(m: seq<Message>, m': seq<Message>)
    requires MessageItems(m) == MessageItems(m')
    ensures UserTurns(m) == UserTurns(m')
  {
    MessageItemsAre(m);
    MessageItemsAre(m');
    if m != [] {
      var n := |m| - 1;
      assert ItemOf(m[n]) == MessageItems(m)[n] == MessageItems(m')[n] == ItemOf(m'[n]);
      assert MessageItems(m[..n]) == MessageItems(m)[..n] && MessageItems(m'[..n]) == MessageItems(m')[..n];
      SameItemsSameTurns(m[..n], m'[..n]);
    }
  }

  /**
   Of requests without framing bytes that hash alike the scorer sees the same, whatever its text functions and
   settings, exactly when the texts it extracts agree and it counts as many tools; and it answers the same
   exactly when those texts agree and the tools do as far as five.
   */
  lemma SameSignalsExactly(a: Request, b: Request)
    requires CleanRequest(a) && CleanRequest(b)
    ensures Stream(Items(a)) == Stream(Items(b)) ==>
              && (AlwaysSameSignals(a, b) <==> SameTexts(a, b) && |a.tools| == |b.tools|)
              && (AlwaysSameAnswer(a, b) <==> SameTexts(a, b) && Min(|a.tools|, 5) == Min(|b.tools|, 5))
  {
    if Stream(Items(a)) == Stream(Items(b)) {
      EqualStreamsExactly(a, b);
      SameItemsSameTurns(MessagesOf(a), MessagesOf(b));
      SignalsExactly(a, b);
      AnswersExactly(a, b);
    }
  }

  /** In the domain, equal streams mean equal classifications. */
  lemma EqualStreamsClassifyAlike(t: TextTools, c: Config, tiers: seq<StaticScore.Tiers.Tier>, a: Request, b: Request)
    requires InDomain(a) && InDomain(b)
    ensures Stream(Items(a)) == Stream(Items(b)) ==> Classify(t, c, tiers, a) == Classify(t, c, tiers, b)
  {
    if Stream(Items(a)) == Stream(Items(b)) {
      EqualStreamsExactly(a, b);
      ToolItemsAre(a.tools);
      ToolItemsAre(b.tools);
      SameItemsSameMessages(a, b);
      SameSignalsExactly(a, b);
      assert AlwaysSameAnswer(a, b);
    }
  }
}
