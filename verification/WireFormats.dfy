/** The two provider wire formats, and what survives the trip. */
module WireFormats {
  import opened MemoryModel
  import opened Messages

  /** JSON text of an argument object; `loads` reads it back. */
  datatype Json = Json(dumps: Args -> string, loads: string -> Option<Args>)

  ghost predicate ReadsBack(j: Json) { forall a :: j.loads(j.dumps(a)) == Some(a) }

  // ----- chat-completions format ------------------------------------------------

  datatype Part = TextPart(text: string) | ImagePart(image: Image)

  datatype Content = Null | Plain(text: string) | Parts(parts: seq<Part>)

  datatype WireCall = WireCall(id: string, name: string, arguments: string)

  datatype Entry =
    | ToolEntry(callId: string, content: string)
    | ChatEntry(role: Role, body: Content, calls: seq<WireCall>)

  function ImageParts(images: seq<Image>): seq<Part> {
    seq(|images|, i requires 0 <= i < |images| => ImagePart(images[i]))
  }

  function BodyOf(m: Message): Content {
    if m.images != [] then Parts((if m.content != "" then [TextPart(m.content)] else []) + ImageParts(m.images))
    else if m.content != "" then Plain(m.content)
    else Null
  }

  function WireCalls(j: Json, calls: seq<ToolCall>): seq<WireCall> {
    seq(|calls|, i requires 0 <= i < |calls| => WireCall(calls[i].id, calls[i].name, j.dumps(calls[i].args)))
  }

  function ToolEntries(results: seq<ToolResult>): seq<Entry> {
    seq(|results|, i requires 0 <= i < |results| => ToolEntry(results[i].callId, results[i].content))
  }

  function Entries(j: Json, m: Message): seq<Entry> {
    if m.role == Tool then ToolEntries(m.results) else [ChatEntry(m.role, BodyOf(m), WireCalls(j, m.calls))]
  }

  function ChatWire(j: Json, h: seq<Message>): seq<Entry> {
    if h == [] then [] else Entries(j, h[0]) + ChatWire(j, h[1..])
  }

  lemma {:induction false} ChatWireAppend(j: Json, h: seq<Message>, m: Message)
    ensures ChatWire(j, h + [m]) == ChatWire(j, h) + Entries(j, m)
  {
    if h == [] {
      assert [m][1..] == [];
    } else {
      assert (h + [m])[1..] == h[1..] + [m];
      ChatWireAppend(j, h[1..], m);
    }
  }

  method EntryOf(j: Json, msg: Message) returns (e: Entry)
    requires msg.role != Tool
    ensures [e] == Entries(j, msg)
  {
    var body;
    if msg.images != [] {
      var lead := if msg.content != "" then [TextPart(msg.content)] else [];
      var parts := [];
      for k := 0 to |msg.images|
        invariant parts == ImageParts(msg.images)[..k]
      {
        parts := parts + [ImagePart(msg.images[k])];
      }
      assert ImageParts(msg.images)[..|msg.images|] == ImageParts(msg.images);
      body := Parts(lead + parts);
    } else {
      body := if msg.content != "" then Plain(msg.content) else Null;
    }
    return ChatEntry(msg.role, body, WireCalls(j, msg.calls));
  }

  method ToChatWire(j: Json, system: string, messages: seq<Message>) returns (wire: seq<Entry>)
    ensures wire == [ChatEntry(System, Plain(system), [])] + ChatWire(j, messages)
    ensures wire[0] == ChatEntry(System, Plain(system), []) && exists at :: ChatSays(j, messages, wire[1..], at)
  {
    hide ChatWire, ChatSays;
    ghost var at := ChatWireSays(j, messages);
    var first := ChatEntry(System, Plain(system), []);
    wire := [];
    NothingSent(j);
    for i := 0 to |messages|
      invariant wire == ChatWire(j, messages[..i])
    {
      var msg := messages[i];
      ChatWireAppend(j, messages[..i], msg);
      assert messages[..i + 1] == messages[..i] + [msg];
      if msg.role == Tool {
        ghost var before := wire;
        for k := 0 to |msg.results|
          invariant wire == before + ToolEntries(msg.results)[..k]
        {
          wire := wire + [ToolEntry(msg.results[k].callId, msg.results[k].content)];
        }
      } else {
        var e := EntryOf(j, msg);
        wire := wire + [e];
      }
    }
    assert messages[..|messages|] == messages;
    ghost var entries := wire;
    wire := [first] + wire;
    assert wire[1..] == entries;
  }

  // ----- the chat entries, said of the messages -----------------------------------------

  /** Text alone, nothing, or the text if there is one and then every image. */
  predicate SaysBody(c: Content, m: Message) {
    if m.images == [] then c == if m.content == "" then Null else Plain(m.content)
    else
      var lead := if m.content == "" then 0 else 1;
      && c.Parts? && |c.parts| == lead + |m.images|
      && (lead == 1 ==> c.parts[0] == TextPart(m.content))
      && forall i :: 0 <= i < |m.images| ==> c.parts[lead + i] == ImagePart(m.images[i])
  }

  /** Each call under its id and name with its arguments as JSON text. */
  predicate SaysCalls(j: Json, ws: seq<WireCall>, calls: seq<ToolCall>) {
    && |ws| == |calls|
    && forall i :: 0 <= i < |calls| ==> ws[i] == WireCall(calls[i].id, calls[i].name, j.dumps(calls[i].args))
  }

  /** The entries from one place to the next are those of one message. */
  predicate SaysMessage(j: Json, m: Message, w: seq<Entry>, from: nat, to: nat) {
    && from <= to <= |w|
    && if m.role == Tool then
         && to == from + |m.results|
         && forall k :: 0 <= k < |m.results| ==>
              w[from + k] == ToolEntry(m.results[k].callId, m.results[k].content)
       else
         && to == from + 1 && w[from].ChatEntry? && w[from].role == m.role
         && SaysBody(w[from].body, m) && SaysCalls(j, w[from].calls, m.calls)
  }

  /** Message after message, entry after entry: a tool message is one entry per result, any other message one entry. */
  ghost predicate ChatSays(j: Json, h: seq<Message>, w: seq<Entry>, at: seq<nat>) {
    && |at| == |h| + 1 && at[0] == 0 && at[|h|] == |w|
    && forall i :: 0 <= i < |h| ==> SaysMessage(j, h[i], w, at[i], at[i + 1])
  }

  lemma EntriesSay(j: Json, m: Message, before: seq<Entry>)
    ensures SaysMessage(j, m, before + Entries(j, m), |before|, |before| + |Entries(j, m)|)
  {
    if m.role == Tool {
      ToolEntriesSay(j, m, before);
    } else {
      ChatEntrySays(j, m);
      hide SaysBody, SaysCalls;
    }
  }

  lemma ToolEntriesSay(j: Json, m: Message, before: seq<Entry>)
    requires m.role == Tool
    ensures SaysMessage(j, m, before + ToolEntries(m.results), |before|, |before| + |m.results|)
  {
    var w := before + ToolEntries(m.results);
    forall k | 0 <= k < |m.results|
      ensures w[|before| + k] == ToolEntry(m.results[k].callId, m.results[k].content)
    {
      assert w[|before| + k] == ToolEntries(m.results)[k];
    }
  }

  lemma ChatEntrySays(j: Json, m: Message)
    ensures SaysBody(BodyOf(m), m) && SaysCalls(j, WireCalls(j, m.calls), m.calls)
  {
  }

  lemma {:induction false} ChatWireSays(j: Json, h: seq<Message>) returns (at: seq<nat>)
    ensures ChatSays(j, h, ChatWire(j, h), at)
  {
    hide SaysMessage, Entries;
    if h == [] {
      at := [0];
    } else {
      var n := |h| - 1;
      assert h == h[..n] + [h[n]];
      ChatWireAppend(j, h[..n], h[n]);
      var before := ChatWire(j, h[..n]);
      var start := ChatWireSays(j, h[..n]);
      at := start + [|ChatWire(j, h)|];
      EntriesSay(j, h[n], before);
      forall i | 0 <= i < |h| ensures SaysMessage(j, h[i], ChatWire(j, h), at[i], at[i + 1]) {
        if i < n { SaysStill(j, h[i], before, Entries(j, h[n]), at[i], at[i + 1]); }
      }
    }
  }

  lemma SaysStill(j: Json, m: Message, w: seq<Entry>, more: seq<Entry>, from: nat, to: nat)
    requires SaysMessage(j, m, w, from, to)
    ensures SaysMessage(j, m, w + more, from, to)
  {
  }

  lemma NothingSent(j: Json)
    ensures ChatWire(j, []) == []
  {
  }

  // Reading the entries back: a maximal run of tool entries is one tool message.

  function TextOf(c: Content): string {
    match c
    case Null => ""
    case Plain(t) => t
    case Parts(ps) => if ps != [] && ps[0].TextPart? then ps[0].text else ""
  }

  function ImagesOf(ps: seq<Part>): seq<Image> {
    if ps == [] then [] else (if ps[0].ImagePart? then [ps[0].image] else []) + ImagesOf(ps[1..])
  }

  function CallOf(j: Json, w: WireCall): ToolCall {
    ToolCall(w.id, w.name, if j.loads(w.arguments).Some? then j.loads(w.arguments).value else map[])
  }

  function CallsOf(j: Json, ws: seq<WireCall>): seq<ToolCall> {
    seq(|ws|, i requires 0 <= i < |ws| => CallOf(j, ws[i]))
  }

  function ToolMessage(results: seq<ToolResult>): Message { Message(Tool, "", [], results, []) }

  function ReadChat(j: Json, w: seq<Entry>): seq<Message> {
    if w == [] then []
    else
      var rest := ReadChat(j, w[1..]);
      match w[0]
      case ChatEntry(role, body, calls) =>
        [Message(role, TextOf(body), CallsOf(j, calls), [], if body.Parts? then ImagesOf(body.parts) else [])] + rest
      case ToolEntry(id, content) =>
        var r := ToolResult(id, content, false);
        if rest != [] && rest[0].role == Tool then [ToolMessage([r] + rest[0].results)] + rest[1..]
        else [ToolMessage([r])] + rest
  }

  function Unflagged(results: seq<ToolResult>): seq<ToolResult> {
    seq(|results|, i requires 0 <= i < |results| => results[i].(isError := false))
  }

  function Erased(m: Message): Message { m.(results := Unflagged(m.results)) }

  function ErasedAll(h: seq<Message>): seq<Message> { seq(|h|, i requires 0 <= i < |h| => Erased(h[i])) }

  lemma {:induction false} ImagesReadBack(images: seq<Image>)
    ensures ImagesOf(ImageParts(images)) == images
  {
    if images == [] {
    } else {
      assert ImageParts(images)[1..] == ImageParts(images[1..]);
      ImagesReadBack(images[1..]);
    }
  }

  lemma ChatMessageReadsBack(j: Json, m: Message)
    requires ReadsBack(j) && WellFormed(m) && m.role != Tool
    ensures var e := Entries(j, m)[0];
            Message(e.role, TextOf(e.body), CallsOf(j, e.calls), [],
                    if e.body.Parts? then ImagesOf(e.body.parts) else [])
            == Erased(m)
  {
    var e := Entries(j, m)[0];
    forall i | 0 <= i < |m.calls| ensures CallsOf(j, e.calls)[i] == m.calls[i] {
      assert j.loads(j.dumps(m.calls[i].args)) == Some(m.calls[i].args);
    }
    assert CallsOf(j, e.calls) == m.calls;
    ImagesReadBack(m.images);
    if m.images != [] && m.content != "" {
      assert ([TextPart(m.content)] + ImageParts(m.images))[1..] == ImageParts(m.images);
    } else if m.images != [] {
      assert [] + ImageParts(m.images) == ImageParts(m.images);
    }
  }

  lemma {:induction false} ToolRunReadsBack(j: Json, results: seq<ToolResult>, w: seq<Entry>)
    requires results != [] && (ReadChat(j, w) == [] || ReadChat(j, w)[0].role != Tool)
    ensures ReadChat(j, ToolEntries(results) + w) == [ToolMessage(Unflagged(results))] + ReadChat(j, w)
  {
    var all := ToolEntries(results) + w;
    var rest := results[1..];
    assert all[1..] == ToolEntries(rest) + w;
    if rest == [] {
      assert all[1..] == w;
      assert Unflagged(results) == [results[0].(isError := false)];
    } else {
      ToolRunReadsBack(j, rest, w);
      assert Unflagged(results) == [results[0].(isError := false)] + Unflagged(rest);
    }
  }

  /** No two tool messages in a row, and every message well formed: what Answered gives. */
  ghost predicate Readable(h: seq<Message>) {
    && (forall i :: 0 <= i < |h| ==> WellFormed(h[i]))
    && (forall i :: 0 < i < |h| ==> h[i].role != Tool || h[i - 1].role != Tool)
  }

  lemma AnsweredIsReadable(h: seq<Message>)
    requires Answered(h)
    ensures Readable(h)
  {
  }

  /**
   * The chat wire loses nothing but the error flags: for any conversation that follows the
   * protocol, reading the entries back gives the same messages with the flags cleared.
   */
  lemma {:induction false} ChatRoundTrip(j: Json, h: seq<Message>)
    requires ReadsBack(j) && Readable(h)
    ensures ReadChat(j, ChatWire(j, h)) == ErasedAll(h)
  {
    if h == [] {
    } else {
      var m, rest := h[0], h[1..];
      ChatRoundTrip(j, rest);
      assert ErasedAll(h) == [Erased(m)] + ErasedAll(rest);
      if m.role == Tool {
        if rest != [] { assert ErasedAll(rest)[0].role == h[1].role; }
        ToolRunReadsBack(j, m.results, ChatWire(j, rest));
      } else {
        ChatMessageReadsBack(j, m);
        assert ChatWire(j, h)[1..] == ChatWire(j, rest);
      }
    }
  }

  /** The flags really are lost: an error result and a plain one travel alike. */
  lemma ErrorFlagNotSent(j: Json, h: seq<Message>)
    ensures ChatWire(j, ErasedAll(h)) == ChatWire(j, h)
  {
    if h != [] {
      assert ErasedAll(h)[1..] == ErasedAll(h[1..]);
      ErrorFlagNotSent(j, h[1..]);
      assert ToolEntries(Unflagged(h[0].results)) == ToolEntries(h[0].results);
    }
  }

  predicate IsRun(w: seq<Entry>, at: nat, calls: seq<ToolCall>) {
    && at + |calls| <= |w|
    && (forall k :: at <= k < at + |calls| ==> w[k].ToolEntry? && w[k].callId == calls[k - at].id)
    && (at + |calls| < |w| ==> w[at + |calls|].ChatEntry?)
  }

  lemma {:induction false} ChatWireSplit(j: Json, h: seq<Message>, i: nat)
    requires i <= |h|
    ensures ChatWire(j, h) == ChatWire(j, h[..i]) + ChatWire(j, h[i..])
  {
    if i == 0 {
      assert h[..0] == [] && h[0..] == h;
    } else {
      assert h[..i][1..] == h[1..][..i - 1] && h[1..][i - 1..] == h[i..];
      ChatWireSplit(j, h[1..], i - 1);
    }
  }

  /** The entries of a call message, of its answer and of what follows. */
  predicate RoundAt(j: Json, w: seq<Entry>, at: nat, calls: seq<ToolCall>) {
    && at < |w| && w[at].ChatEntry? && w[at].calls == WireCalls(j, calls)
    && IsRun(w, at + 1, calls)
  }

  lemma RoundAtStart(j: Json, m: Message, answer: Message, rest: seq<Entry>)
    requires m.role != Tool && Answers(answer, m.calls) && (rest != [] ==> rest[0].ChatEntry?)
    ensures RoundAt(j, Entries(j, m) + (Entries(j, answer) + rest), 0, m.calls)
  {
    assert |answer.results| == |ResultIds(answer.results)| == |CallIds(m.calls)| == |m.calls|;
    forall k | 0 <= k < |m.calls| ensures answer.results[k].callId == m.calls[k].id {
      assert ResultIds(answer.results)[k] == CallIds(m.calls)[k];
    }
  }

  lemma RoundShift(j: Json, lead: seq<Entry>, w: seq<Entry>, calls: seq<ToolCall>)
    requires RoundAt(j, w, 0, calls)
    ensures RoundAt(j, lead + w, |lead|, calls)
  {
  }

  /** On the chat wire each message with n calls is followed by exactly n tool entries with its ids in order. */
  lemma ChatWirePairs(j: Json, h: seq<Message>, i: nat)
    requires Answered(h) && i < |h| && h[i].calls != []
    ensures RoundAt(j, ChatWire(j, h), |ChatWire(j, h[..i])|, h[i].calls)
  {
    hide RoundAt;
    ChatWireSplit(j, h, i);
    var tail := h[i..];
    assert tail[0] == h[i] && tail[1..] == h[i + 1..] && h[i + 1..][0] == h[i + 1] && h[i + 1..][1..] == h[i + 2..];
    var rest := ChatWire(j, h[i + 2..]);
    assert ChatWire(j, tail) == Entries(j, h[i]) + (Entries(j, h[i + 1]) + rest);
    if i + 2 < |h| {
      assert h[i + 1].calls == [];
      assert h[i + 2..][0] == h[i + 2];
    }
    RoundAtStart(j, h[i], h[i + 1], rest);
    RoundShift(j, ChatWire(j, h[..i]), ChatWire(j, tail), h[i].calls);
  }

  // ----- content-block format ------------------------------------------------------

  datatype Block =
    | ImageBlock(image: Image)
    | TextBlock(text: string)
    | ToolUse(call: ToolCall)
    | ToolResultBlock(result: ToolResult)

  datatype BlockBody = Blocks(blocks: seq<Block>) | Bare(text: string)

  datatype BlockMessage = BlockMessage(role: Role, body: BlockBody)

  function ResultBlocks(rs: seq<ToolResult>): seq<Block> {
    seq(|rs|, i requires 0 <= i < |rs| => ToolResultBlock(rs[i]))
  }

  function ImageBlocks(images: seq<Image>): seq<Block> {
    seq(|images|, i requires 0 <= i < |images| => ImageBlock(images[i]))
  }

  function CallBlocks(calls: seq<ToolCall>): seq<Block> {
    seq(|calls|, i requires 0 <= i < |calls| => ToolUse(calls[i]))
  }

  function BlocksOf(m: Message): seq<Block> {
    ImageBlocks(m.images) + TextBlocks(m.content) + CallBlocks(m.calls)
  }

  function ToBlocks(m: Message): BlockMessage {
    if m.role == Tool then BlockMessage(User, Blocks(ResultBlocks(m.results)))
    else if BlocksOf(m) != [] then BlockMessage(m.role, Blocks(BlocksOf(m)))
    else BlockMessage(m.role, Bare(m.content))
  }

  function BlockWire(h: seq<Message>): seq<BlockMessage> { seq(|h|, i requires 0 <= i < |h| => ToBlocks(h[i])) }

  method ToBlockWire(messages: seq<Message>) returns (wire: seq<BlockMessage>)
    ensures wire == BlockWire(messages)
    ensures |wire| == |messages| && forall i :: 0 <= i < |wire| ==> BlockSays(messages[i], wire[i])
  {
    hide BlockSays;
    EachBlockSays(messages);
    wire := [];
    for i := 0 to |messages|
      invariant wire == BlockWire(messages)[..i]
    {
      var msg := messages[i];
      if msg.role == Tool {
        wire := wire + [BlockMessage(User, Blocks(ResultBlocks(msg.results)))];
      } else {
        var blocks := [];
        for k := 0 to |msg.images|
          invariant blocks == ImageBlocks(msg.images)[..k]
        {
          blocks := blocks + [ImageBlock(msg.images[k])];
        }
        if msg.content != "" {
          blocks := blocks + [TextBlock(msg.content)];
        }
        ghost var lead := blocks;
        for k := 0 to |msg.calls|
          invariant blocks == lead + CallBlocks(msg.calls)[..k]
        {
          blocks := blocks + [ToolUse(msg.calls[k])];
        }
        assert blocks == BlocksOf(msg);
        wire := wire + [BlockMessage(msg.role, if blocks != [] then Blocks(blocks) else Bare(msg.content))];
      }
    }
  }

  /**
   * A tool message is a user message of its results; any other keeps its role and holds its images,
   * its text if there is one, and its calls, or the bare text when that would be nothing.
   */
  predicate BlockSays(m: Message, b: BlockMessage) {
    if m.role == Tool then
      && b.role == User && b.body.Blocks? && |b.body.blocks| == |m.results|
      && forall k :: 0 <= k < |m.results| ==> b.body.blocks[k] == ToolResultBlock(m.results[k])
    else
      var texts := if m.content == "" then 0 else 1;
      && b.role == m.role
      && if m.images == [] && texts == 0 && m.calls == [] then b.body == Bare(m.content)
         else
           && b.body.Blocks? && |b.body.blocks| == |m.images| + texts + |m.calls|
           && (forall i :: 0 <= i < |m.images| ==> b.body.blocks[i] == ImageBlock(m.images[i]))
           && (texts == 1 ==> b.body.blocks[|m.images|] == TextBlock(m.content))
           && (forall i :: 0 <= i < |m.calls| ==> b.body.blocks[|m.images| + texts + i] == ToolUse(m.calls[i]))
  }

  lemma EachBlockSays(h: seq<Message>)
    ensures forall i :: 0 <= i < |h| ==> BlockSays(h[i], BlockWire(h)[i])
  {
    hide BlockSays, ToBlocks;
    forall i | 0 <= i < |h| ensures BlockSays(h[i], BlockWire(h)[i]) {
      BlocksSay(h[i]);
    }
  }

  lemma BlocksSay(m: Message)
    ensures BlockSays(m, ToBlocks(m))
  {
    if m.role != Tool {
      assert |BlocksOf(m)| == |m.images| + |TextBlocks(m.content)| + |m.calls|;
    }
  }

  /** What f picks from the blocks, in order. */
  function Collect<T>(f: Block -> seq<T>, bs: seq<Block>): seq<T> {
    if bs == [] then [] else f(bs[0]) + Collect(f, bs[1..])
  }

  function ImageIn(b: Block): seq<Image> { if b.ImageBlock? then [b.image] else [] }

  function TextIn(b: Block): string { if b.TextBlock? then b.text else [] }

  function CallIn(b: Block): seq<ToolCall> { if b.ToolUse? then [b.call] else [] }

  function ResultIn(b: Block): seq<ToolResult> { if b.ToolResultBlock? then [b.result] else [] }

  function ReadImages(bs: seq<Block>): seq<Image> { Collect(ImageIn, bs) }

  function ReadText(bs: seq<Block>): string { Collect(TextIn, bs) }

  function ReadCalls(bs: seq<Block>): seq<ToolCall> { Collect(CallIn, bs) }

  function ReadResults(bs: seq<Block>): seq<ToolResult> { Collect(ResultIn, bs) }

  function FromBlocks(w: BlockMessage): Message {
    match w.body
    case Bare(t) => Say(w.role, t)
    case Blocks(bs) =>
      Message(if ReadResults(bs) != [] then Tool else w.role,
              ReadText(bs), ReadCalls(bs), ReadResults(bs), ReadImages(bs))
  }

  lemma {:induction false} CollectAppend<T>(f: Block -> seq<T>, a: seq<Block>, b: seq<Block>)
    ensures Collect(f, a + b) == Collect(f, a) + Collect(f, b)
  {
    if a == [] {
      assert a + b == b;
    } else {
      assert (a + b)[1..] == a[1..] + b;
      CollectAppend(f, a[1..], b);
    }
  }

  /** Nothing is picked from blocks that hold nothing of the kind. */
  lemma {:induction false} CollectNone<T>(f: Block -> seq<T>, bs: seq<Block>)
    requires forall b :: b in bs ==> f(b) == []
    ensures Collect(f, bs) == []
  {
    if bs == [] {
    } else {
      assert bs[0] in bs;
      CollectNone(f, bs[1..]);
    }
  }

  /** Everything is picked, in order, from blocks made one for one from the items. */
  lemma {:induction false} CollectEach<T>(f: Block -> seq<T>, items: seq<T>, bs: seq<Block>)
    requires |bs| == |items| && forall i :: 0 <= i < |bs| ==> f(bs[i]) == [items[i]]
    ensures Collect(f, bs) == items
  {
    if bs == [] {
    } else {
      CollectEach(f, items[1..], bs[1..]);
    }
  }

  /** The content-block wire loses nothing: every well-formed message reads back exactly. */
  lemma BlockRoundTrip(m: Message)
    requires WellFormed(m)
    ensures FromBlocks(ToBlocks(m)) == m
  {
    if m.role == Tool {
      CollectEach(ResultIn, m.results, ResultBlocks(m.results));
      CollectNone(ImageIn, ResultBlocks(m.results));
      CollectNone(TextIn, ResultBlocks(m.results));
      CollectNone(CallIn, ResultBlocks(m.results));
    } else {
      ReadChatBlocks(m);
      if BlocksOf(m) == [] {
        assert |CallBlocks(m.calls)| == |m.calls| && |ImageBlocks(m.images)| == |m.images|;
      }
    }
  }

  lemma ReadChatBlocks(m: Message)
    ensures var bs := BlocksOf(m);
            ReadImages(bs) == m.images && ReadText(bs) == m.content && ReadCalls(bs) == m.calls && ReadResults(bs) == []
  {
    hide Collect, BlocksOf;
    ReadParts(m, ImageIn);
    ReadParts(m, TextIn);
    ReadParts(m, CallIn);
    ReadParts(m, ResultIn);
    CollectEach(ImageIn, m.images, ImageBlocks(m.images));
    CollectNone(TextIn, ImageBlocks(m.images));
    CollectNone(CallIn, ImageBlocks(m.images));
    CollectNone(ResultIn, ImageBlocks(m.images));
    CollectEach(CallIn, m.calls, CallBlocks(m.calls));
    CollectNone(ImageIn, CallBlocks(m.calls));
    CollectNone(TextIn, CallBlocks(m.calls));
    CollectNone(ResultIn, CallBlocks(m.calls));
  }

  function TextBlocks(content: string): seq<Block> { if content != "" then [TextBlock(content)] else [] }

  /** What is picked from a message's blocks, part by part. */
  lemma ReadParts<T>(m: Message, f: Block -> seq<T>)
    ensures Collect(f, BlocksOf(m))
            == Collect(f, ImageBlocks(m.images)) + (if m.content != "" then f(TextBlock(m.content)) else [])
               + Collect(f, CallBlocks(m.calls))
  {
    var images, text, calls := ImageBlocks(m.images), TextBlocks(m.content), CallBlocks(m.calls);
    CollectAppend(f, images + text, calls);
    CollectAppend(f, images, text);
    if m.content != "" {
      assert text[1..] == [] && f(text[0]) + [] == f(text[0]);
    }
  }

  /** On the content-block wire each tool_use is answered, id by id, in the very next message. */
  lemma BlockWirePairs(h: seq<Message>, i: nat)
    requires Answered(h) && i < |h| && h[i].calls != []
    ensures i + 1 < |h|
    ensures var w := BlockWire(h);
            && w[i].body.Blocks? && CallIds(ReadCalls(w[i].body.blocks)) == CallIds(h[i].calls)
            && w[i + 1].role == User && w[i + 1].body.Blocks?
            && ResultIds(ReadResults(w[i + 1].body.blocks)) == CallIds(h[i].calls)
  {
    BlockRoundTrip(h[i]);
    BlockRoundTrip(h[i + 1]);
    assert BlocksOf(h[i])[|BlocksOf(h[i])| - 1] == ToolUse(h[i].calls[|h[i].calls| - 1]);
  }
}
