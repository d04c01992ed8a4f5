/** The Anthropic protocol as it is printed: bodies and stream events in their own field names, which
    both decoders of adapters/anthropic.rs read back. */
module AnthropicWire {
  import opened Text
  import opened Json
  import opened LineFraming
  import opened WireLines
  import opened AnthropicStream
  import opened AnthropicEquivalence

  function Count(key: string, n: Option<Uint64>): Value {
    Obj(match n case Some(k) => map[key := UInt(k)] case None => map[])
  }

  // ---- a whole message -----------------------------------------------------------------

  function WireBlock(b: Block): Value {
    match b
    case TextBlock(text) => Obj(map["type" := Str("text"), "text" := Str(text)])
    case ToolUse(id, name, input) =>
      Obj(map["type" := Str("tool_use"), "id" := Str(id), "name" := Str(name), "input" := input])
    case OtherBlock => Obj(map["type" := Str("thinking")])
  }

  function WireUsage(u: Usage): Value {
    Obj(Count("input_tokens", u.inputTokens).fields + Count("output_tokens", u.outputTokens).fields)
  }

  function WireMessage(m: Message): Value {
    Obj(map["content" := Arr(Each(WireBlock, m.blocks)), "usage" := WireUsage(m.usage)])
  }

  lemma BlockReads(b: Block)
    ensures BlockOf(WireBlock(b)) == b
  {
  }

  lemma UsageReads(u: Usage)
    ensures WireUsage(u).At("input_tokens").AsU64() == u.inputTokens && WireUsage(u).At("output_tokens").AsU64() == u.outputTokens
  {
  }

  /** The message printed is the message read. */
  lemma MessageReads(m: Message)
    ensures MessageOf(WireMessage(m)) == m
  {
    var wire := WireMessage(m);
    assert wire.At("content") == Arr(Each(WireBlock, m.blocks)) && wire.At("usage") == WireUsage(m.usage);
    EachLength(WireBlock, m.blocks);
    forall i | 0 <= i < |m.blocks|
      ensures BlocksOf(Each(WireBlock, m.blocks))[i] == m.blocks[i]
    {
      EachAt(WireBlock, m.blocks, i);
      BlockReads(m.blocks[i]);
    }
    UsageReads(m.usage);
  }

  // ---- stream events -------------------------------------------------------------------

  function WireDelta(index: Uint64, delta: map<string, Value>): Value {
    Obj(map["type" := Str("content_block_delta"), "index" := UInt(index), "delta" := Obj(delta)])
  }

  function Wire(e: Event): Value {
    match e
    case MessageStart(n) =>
      Obj(map["type" := Str("message_start"), "message" := Obj(map["usage" := Count("input_tokens", n)])])
    case BlockStart(i, Some((id, name))) =>
      Obj(map["type" := Str("content_block_start"), "index" := UInt(i),
              "content_block" := Obj(map["type" := Str("tool_use"), "id" := Str(id), "name" := Str(name)])])
    case BlockStart(i, None) =>
      Obj(map["type" := Str("content_block_start"), "index" := UInt(i), "content_block" := Obj(map["type" := Str("text")])])
    case TextDelta(i, text) => WireDelta(i, map["type" := Str("text_delta"), "text" := Str(text)])
    case ThinkingDelta(text) => WireDelta(0, map["type" := Str("thinking_delta"), "thinking" := Str(text)])
    case InputJsonDelta(i, fragment) => WireDelta(i, map["type" := Str("input_json_delta"), "partial_json" := Str(fragment)])
    case MessageDelta(n) => Obj(map["type" := Str("message_delta"), "usage" := Count("output_tokens", n)])
    case Ignored => Obj(map["type" := Str("ping")])
  }

  lemma StartReads(i: Uint64, tool: Option<(string, string)>)
    ensures EventOf(Wire(BlockStart(i, tool))) == BlockStart(i, tool)
  {
  }

  lemma TextReads(i: Uint64, text: string)
    ensures EventOf(Wire(TextDelta(i, text))) == TextDelta(i, text)
  {
  }

  lemma InputReads(i: Uint64, fragment: string)
    ensures EventOf(Wire(InputJsonDelta(i, fragment))) == InputJsonDelta(i, fragment)
  {
  }

  lemma ThinkingReads(text: string)
    ensures EventOf(Wire(ThinkingDelta(text))) == ThinkingDelta(text)
  {
  }

  lemma CountReads(n: Option<Uint64>)
    ensures EventOf(Wire(MessageStart(n))) == MessageStart(n) && EventOf(Wire(MessageDelta(n))) == MessageDelta(n)
  {
  }

  /** Every event printed is the event read. */
  lemma EventReads(e: Event)
    ensures EventOf(Wire(e)) == e
  {
    match e
    case MessageStart(n) => CountReads(n);
    case BlockStart(i, tool) => StartReads(i, tool);
    case TextDelta(i, text) => TextReads(i, text);
    case ThinkingDelta(text) => ThinkingReads(text);
    case InputJsonDelta(i, fragment) => InputReads(i, fragment);
    case MessageDelta(n) => CountReads(n);
    case Ignored =>
  }

  /** What is read from a value of any shape: the kinds are told by their names alone, and a member that
      is missing or of another type reads as empty, or as index 0. */
  lemma AnyEvent(v: Value)
    ensures var e, kind, delta, block := EventOf(v), v.At("type"), v.At("delta"), v.At("content_block");
      && (e.MessageStart? <==> kind == Str("message_start"))
      && (e.BlockStart? <==> kind == Str("content_block_start"))
      && (e.TextDelta? <==> kind == Str("content_block_delta") && delta.At("type") == Str("text_delta"))
      && (e.ThinkingDelta? <==> kind == Str("content_block_delta") && delta.At("type") == Str("thinking_delta"))
      && (e.InputJsonDelta? <==> kind == Str("content_block_delta") && delta.At("type") == Str("input_json_delta"))
      && (e.MessageDelta? <==> kind == Str("message_delta"))
      && (e.TextDelta? && !delta.At("text").Str? ==> e.text == "")
      && (e.ThinkingDelta? && !delta.At("thinking").Str? ==> e.text == "")
      && (e.InputJsonDelta? && !delta.At("partial_json").Str? ==> e.fragment == "")
      && ((e.BlockStart? || e.TextDelta? || e.InputJsonDelta?) && !v.At("index").UInt? ==> e.index == 0)
      && (e.BlockStart? ==> (e.tool.Some? <==> block.At("type") == Str("tool_use")))
      && (e.BlockStart? && e.tool.Some? && !block.At("id").Str? ==> e.tool.value.0 == "")
      && (e.BlockStart? && e.tool.Some? && !block.At("name").Str? ==> e.tool.value.1 == "")
  {
  }

  lemma AnyBlock(v: Value)
    ensures var b := BlockOf(v);
      && (b.TextBlock? <==> v.At("type") == Str("text")) && (b.ToolUse? <==> v.At("type") == Str("tool_use"))
      && (b.TextBlock? && !v.At("text").Str? ==> b.text == "")
      && (b.ToolUse? && !v.At("id").Str? ==> b.id == "") && (b.ToolUse? && !v.At("name").Str? ==> b.name == "")
  {
  }

  /** A line sends an event: as a data line, or, for nothing at all, as any other line. */
  predicate Sends(codec: Codec, l: WireLine, e: Event) {
    LineOk(codec, l) && (l == Data(Wire(e)) || (e == Ignored && !l.Data?))
  }

  predicate SendsAll(codec: Codec, ls: seq<WireLine>, es: seq<Event>) {
    |ls| == |es| && forall i | 0 <= i < |es| :: Sends(codec, ls[i], es[i])
  }

  lemma LineIsEvent(codec: Codec, l: WireLine, e: Event)
    requires Sends(codec, l, e)
    ensures LineEvent(codec, TrimEnd(Printed(codec, l))) == e
  {
    match l
    case Data(v) =>
      DataPayload(codec, v);
      EventReads(e);
    case EndMarker => EndPayload(codec);
    case Noise(text) => NoisePayload(codec, text);
  }

  lemma {:induction false} LinesAreSent(codec: Codec, ls: seq<WireLine>, es: seq<Event>)
    requires SendsAll(codec, ls, es)
    ensures EventsOf(codec, PrintedAll(codec, ls)) == es
  {
    if ls != [] {
      LineIsEvent(codec, ls[0], es[0]);
      LinesAreSent(codec, ls[1..], es[1..]);
      assert PrintedAll(codec, ls)[1..] == PrintedAll(codec, ls[1..]);
    }
  }

  /** The events of a printed stream are those sent. */
  lemma StreamReads(codec: Codec, ls: seq<WireLine>, es: seq<Event>)
    requires SendsAll(codec, ls, es)
    ensures EventsOf(codec, LinesOf(TextOf(codec, ls))) == es
  {
    forall l | l in ls
      ensures LineOk(codec, l)
    {
      var i :| 0 <= i < |ls| && ls[i] == l;
      assert Sends(codec, ls[i], es[i]);
    }
    PrintedLines(codec, ls);
    LinesAreSent(codec, ls, es);
  }

  // ---- what a response says ------------------------------------------------------------

  function TextIn(b: Block): string {
    if b.TextBlock? then b.text else ""
  }

  /** The texts of the text blocks, joined. */
  function Texts(blocks: seq<Block>): string {
    Concat(Each(TextIn, blocks))
  }

  function Tools(blocks: seq<Block>): seq<Block> {
    Retain(blocks, (b: Block) => b.ToolUse?)
  }

  /** A call of a tool block: its id, its name, and its input as JSON. */
  predicate CallFor(codec: Codec, call: ToolCall, b: Block) {
    b.ToolUse? && call.id == b.id && call.name == b.name && codec.parse(call.arguments) == Some(b.input)
  }

  /** The response a message makes: the texts joined, one call for each tool block in order, the counts. */
  predicate Answers(codec: Codec, r: ChatResponse, m: Message) {
    && r.content == Texts(m.blocks) && r.usage == m.usage && r.toolCalls != Some([])
    && |ListOf(r.toolCalls)| == |Tools(m.blocks)|
    && forall i | 0 <= i < |Tools(m.blocks)| :: CallFor(codec, ListOf(r.toolCalls)[i], Tools(m.blocks)[i])
  }

  lemma TextsSnoc(blocks: seq<Block>, b: Block)
    ensures Texts(blocks + [b]) == Texts(blocks) + TextIn(b)
  {
    EachAppend(TextIn, blocks, [b]);
    assert Each(TextIn, [b]) == [TextIn(b)] + Each(TextIn, [b][1..]);
    assert Each(TextIn, [b]) == [TextIn(b)];
    ConcatSnoc(Each(TextIn, blocks), TextIn(b));
  }

  lemma {:induction false} ContentIsTexts(blocks: seq<Block>)
    ensures ContentOf(blocks) == Texts(blocks)
  {
    if blocks != [] {
      var n := |blocks| - 1;
      ContentIsTexts(blocks[..n]);
      TextsSnoc(blocks[..n], blocks[n]);
      assert blocks[..n] + [blocks[n]] == blocks;
    }
  }

  predicate CallsFor(codec: Codec, calls: seq<ToolCall>, tools: seq<Block>) {
    |calls| == |tools| && forall i | 0 <= i < |tools| :: CallFor(codec, calls[i], tools[i])
  }

  lemma CallsForSnoc(codec: Codec, calls: seq<ToolCall>, tools: seq<Block>, b: Block)
    requires CallsFor(codec, calls, tools) && (b.ToolUse? ==> ReadsBack(codec, b.input))
    ensures CallsFor(codec, calls + CallOf(codec, b), tools + if b.ToolUse? then [b] else [])
  {
  }

  lemma {:induction false} CallsAreTools(codec: Codec, blocks: seq<Block>)
    requires forall b | b in blocks && b.ToolUse? :: ReadsBack(codec, b.input)
    ensures CallsFor(codec, CallsOf(codec, blocks), Tools(blocks))
  {
    if blocks != [] {
      var n := |blocks| - 1;
      assert blocks[..n] + [blocks[n]] == blocks && blocks[n] in blocks;
      CallsAreTools(codec, blocks[..n]);
      CallsForSnoc(codec, CallsOf(codec, blocks[..n]), Tools(blocks[..n]), blocks[n]);
    }
  }

  lemma BlockingIs(codec: Codec, m: Message)
    requires InputsReadBack(codec, m.blocks)
    ensures Answers(codec, Blocking(codec, m), m)
  {
    ContentIsTexts(m.blocks);
    CallsAreTools(codec, m.blocks);
  }

  /** The blocking call on a printed message answers with that message. */
  method DecodeMessage(codec: Codec, m: Message) returns (r: ChatResponse)
    requires InputsReadBack(codec, m.blocks)
    ensures Answers(codec, r, m)
  {
    MessageReads(m);
    BlockingIs(codec, m);
    r := DecodeReply(codec, WireMessage(m));
  }

  lemma SameAnswer(codec: Codec, r: ChatResponse, blocking: ChatResponse, m: Message)
    requires Answers(codec, blocking, m) && r.content == blocking.content && r.usage == blocking.usage
    requires (r.toolCalls.Some? <==> blocking.toolCalls.Some?) && r.toolCalls != Some([])
    requires SameCalls(codec, ListOf(r.toolCalls), ListOf(blocking.toolCalls))
    ensures Answers(codec, r, m)
  {
    forall i | 0 <= i < |Tools(m.blocks)|
      ensures CallFor(codec, ListOf(r.toolCalls)[i], Tools(m.blocks)[i])
    {
      assert CallFor(codec, ListOf(blocking.toolCalls)[i], Tools(m.blocks)[i]);
    }
  }

  /** End to end: however a message is cut into events, the events are printed as lines with other lines
      between them, and the lines are cut into chunks, the streaming call answers with that message and
      forwards exactly its text. */
  method StreamMessage(codec: Codec, chunks: seq<string>, ghost m: Message, ghost es: seq<Event>, ghost ls: seq<WireLine>)
    returns (r: ChatResponse, deltas: seq<Delta>)
    requires Concat(chunks) == TextOf(codec, ls) && SendsAll(codec, ls, es)
    requires InputsReadBack(codec, m.blocks) && Encodes(codec, m, es) && AllNamed(m.blocks)
    ensures Answers(codec, r, m) && AnswerText(deltas) == Texts(m.blocks)
  {
    r, deltas := RunStreaming(codec, chunks);
    StreamReads(codec, ls, es);
    LinesAreEvents(codec, NEW, LinesOf(Concat(chunks)));
    ContentAgrees(codec, m, es);
    CallsAgreeIff(codec, m, es);
    BlockingIs(codec, m);
    SameAnswer(codec, r, Blocking(codec, m), m);
  }
}
