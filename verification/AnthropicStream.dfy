/** Anthropic messages, decoded whole and decoded from a stream (adapters/anthropic.rs). */
module AnthropicStream {
  import opened Text
  import opened Json
  import opened LineFraming

  // ---- the blocking decoder ------------------------------------------------------------

  datatype Block = TextBlock(text: string) | ToolUse(id: string, name: string, input: Value) | OtherBlock

  function BlockOf(v: Value): Block {
    if v.At("type") == Str("text") then TextBlock(v.At("text").StrOr(""))
    else if v.At("type") == Str("tool_use") then ToolUse(v.At("id").StrOr(""), v.At("name").StrOr(""), v.At("input"))
    else OtherBlock
  }

  function BlocksOf(items: seq<Value>): (r: seq<Block>)
    ensures |r| == |items| && forall i | 0 <= i < |items| :: r[i] == BlockOf(items[i])
  {
    seq(|items|, i requires 0 <= i < |items| => BlockOf(items[i]))
  }

  /** A whole message, as the blocking reply states it. */
  datatype Message = Message(blocks: seq<Block>, usage: Usage)

  function MessageOf(v: Value): Message {
    Message(BlocksOf(v.At("content").Elements()),
            Usage(v.At("usage").At("input_tokens").AsU64(), v.At("usage").At("output_tokens").AsU64()))
  }

  function ContentOf(blocks: seq<Block>): string {
    if blocks == [] then ""
    else
      var b := blocks[|blocks| - 1];
      ContentOf(blocks[..|blocks| - 1]) + if b.TextBlock? then b.text else ""
  }

  function CallsOf(codec: Codec, blocks: seq<Block>): seq<ToolCall> {
    if blocks == [] then []
    else
      CallsOf(codec, blocks[..|blocks| - 1]) + CallOf(codec, blocks[|blocks| - 1])
  }

  function CallOf(codec: Codec, b: Block): seq<ToolCall> {
    if b.ToolUse? then [ToolCall(b.id, b.name, codec.render(b.input))] else []
  }

  function Blocking(codec: Codec, m: Message): ChatResponse {
    ChatResponse(ContentOf(m.blocks), NonEmpty(CallsOf(codec, m.blocks)), m.usage)
  }

  /** The decoding loop of `run_chat_completion`. */
  method DecodeReply(codec: Codec, value: Value) returns (r: ChatResponse)
    ensures r == Blocking(codec, MessageOf(value))
  {
    var items := value.At("content").Elements();
    ghost var blocks := BlocksOf(items);
    var content, calls := "", [];
    for k := 0 to |items|
      invariant content == ContentOf(blocks[..k]) && calls == CallsOf(codec, blocks[..k])
    {
      assert blocks[..k + 1][..k] == blocks[..k];
      var block := items[k];
      if block.At("type") == Str("text") {
        content := content + block.At("text").StrOr("");
      } else if block.At("type") == Str("tool_use") {
        calls := calls + [ToolCall(block.At("id").StrOr(""), block.At("name").StrOr(""), codec.render(block.At("input")))];
      }
      assert content == ContentOf(blocks[..k]) + if blocks[k].TextBlock? then blocks[k].text else "";
    }
    assert blocks[..|items|] == blocks;
    r := ChatResponse(content, NonEmpty(calls),
                      Usage(value.At("usage").At("input_tokens").AsU64(), value.At("usage").At("output_tokens").AsU64()));
  }

  // ---- the stream ----------------------------------------------------------------------

  /** A decoded stream event. A block start names the tool it opens, if it opens one. */
  datatype Event =
    | MessageStart(inputTokens: Option<Uint64>)
    | BlockStart(index: Uint64, tool: Option<(string, string)>)
    | TextDelta(index: Uint64, text: string)
    | ThinkingDelta(text: string)
    | InputJsonDelta(index: Uint64, fragment: string)
    | MessageDelta(outputTokens: Option<Uint64>)
    | Ignored

  function IndexOf(v: Value): Uint64 {
    match v.At("index").AsU64() case Some(i) => i case None => 0
  }

  function EventOf(v: Value): Event {
    var kind, delta := v.At("type").StrOr(""), v.At("delta");
    if kind == "message_start" then MessageStart(v.At("message").At("usage").At("input_tokens").AsU64())
    else if kind == "content_block_start" then
      var block := v.At("content_block");
      BlockStart(IndexOf(v), if block.At("type") == Str("tool_use")
                             then Some((block.At("id").StrOr(""), block.At("name").StrOr(""))) else None)
    else if kind == "content_block_delta" then
      if delta.At("type") == Str("text_delta") then TextDelta(IndexOf(v), delta.At("text").StrOr(""))
      else if delta.At("type") == Str("thinking_delta") then ThinkingDelta(delta.At("thinking").StrOr(""))
      else if delta.At("type") == Str("input_json_delta") then InputJsonDelta(IndexOf(v), delta.At("partial_json").StrOr(""))
      else Ignored
    else if kind == "message_delta" then MessageDelta(v.At("usage").At("output_tokens").AsU64())
    else Ignored
  }

  /** The assembler's fields, and the deltas it forwarded. */
  datatype Assembly = Assembly(content: string, blocks: seq<Slot>, usage: Usage, deltas: seq<Delta>)

  const NEW := Assembly("", [], NO_USAGE, [])

  function Heard(a: Assembly, e: Event): Assembly {
    match e
    case MessageStart(n) => a.(usage := a.usage.(inputTokens := n))
    case BlockStart(i, tool) =>
      var grown := Grow(a.blocks, i + 1);
      a.(blocks := match tool
                   case Some((id, name)) => grown[i := grown[i].(id := id, name := name)]
                   case None => grown)
    case TextDelta(_, text) =>
      if text == "" then a else a.(content := a.content + text, deltas := a.deltas + [Delta(text, false)])
    case ThinkingDelta(text) => if text == "" then a else a.(deltas := a.deltas + [Delta(text, true)])
    case InputJsonDelta(i, fragment) =>
      var grown := Grow(a.blocks, i + 1);
      a.(blocks := grown[i := grown[i].(arguments := grown[i].arguments + fragment)])
    case MessageDelta(n) => if n.Some? then a.(usage := a.usage.(outputTokens := n)) else a
    case Ignored => a
  }

  function HeardAll(a: Assembly, es: seq<Event>): Assembly {
    Fold(Heard, a, es)
  }

  /** The event of a line, if it is a data line that parses. */
  function LineEvent(codec: Codec, line: string): Event {
    match StripPrefix(line, DATA)
    case None => Ignored
    case Some(data) => match codec.parse(data) case Some(v) => EventOf(v) case None => Ignored
  }

  /** An empty argument text becomes an empty object; slots with neither id nor name are dropped. */
  function FinishSlots(slots: seq<Slot>): seq<ToolCall> {
    if slots == [] then []
    else
      var s := slots[|slots| - 1];
      FinishSlots(slots[..|slots| - 1]) + SlotCall(s)
  }

  function SlotCall(s: Slot): seq<ToolCall> {
    if s.id == "" && s.name == "" then [] else [ToolCall(s.id, s.name, if s.arguments == "" then "{}" else s.arguments)]
  }

  function FinishOf(a: Assembly): ChatResponse {
    ChatResponse(a.content, NonEmpty(FinishSlots(a.blocks)), a.usage)
  }

  /** The assembler: its fields change in place as lines arrive. */
  class Stream {
    var content: string
    var blocks: seq<Slot>
    var usage: Usage
    var deltas: seq<Delta>

    function State(): Assembly
      reads this
    {
      Assembly(content, blocks, usage, deltas)
    }

    constructor ()
      ensures State() == NEW
    {
      content, blocks, usage, deltas := "", [], NO_USAGE, [];
    }

    method FeedLine(codec: Codec, line: string)
      modifies this
      ensures State() == Heard(old(State()), LineEvent(codec, line))
    {
      var data := StripPrefix(line, DATA);
      if data.None? {
        return;
      }
      var parsed := codec.parse(data.value);
      if parsed.None? {
        return;
      }
      var value := parsed.value;
      var kind := value.At("type").StrOr("");
      if kind == "message_start" {
        usage := usage.(inputTokens := value.At("message").At("usage").At("input_tokens").AsU64());
      } else if kind == "content_block_start" {
        var i: nat, block := IndexOf(value), value.At("content_block");
        blocks := Grow(blocks, i + 1);
        if block.At("type") == Str("tool_use") {
          blocks := blocks[i := blocks[i].(id := block.At("id").StrOr(""), name := block.At("name").StrOr(""))];
        }
      } else if kind == "content_block_delta" {
        FeedDelta(IndexOf(value), value.At("delta"));
      } else if kind == "message_delta" {
        var output := value.At("usage").At("output_tokens").AsU64();
        if output.Some? {
          usage := usage.(outputTokens := output);
        }
      }
    }

    method FeedDelta(i: Uint64, delta: Value)
      modifies this
      ensures State() == Heard(old(State()),
                               if delta.At("type") == Str("text_delta") then TextDelta(i, delta.At("text").StrOr(""))
                               else if delta.At("type") == Str("thinking_delta") then ThinkingDelta(delta.At("thinking").StrOr(""))
                               else if delta.At("type") == Str("input_json_delta")
                               then InputJsonDelta(i, delta.At("partial_json").StrOr(""))
                               else Ignored)
    {
      if delta.At("type") == Str("text_delta") {
        var text := delta.At("text").StrOr("");
        if text != "" {
          content := content + text;
          deltas := deltas + [Delta(text, false)];
        }
      } else if delta.At("type") == Str("thinking_delta") {
        var text := delta.At("thinking").StrOr("");
        if text != "" {
          deltas := deltas + [Delta(text, true)];
        }
      } else if delta.At("type") == Str("input_json_delta") {
        blocks := Grow(blocks, i + 1);
        if delta.At("partial_json").Str? {
          blocks := blocks[i := blocks[i].(arguments := blocks[i].arguments + delta.At("partial_json").s)];
        } else {
          assert blocks[i].arguments + "" == blocks[i].arguments;
        }
      }
    }
  }

  function Feeder(codec: Codec): (Assembly, string) -> Assembly {
    (a, line) => Heard(a, LineEvent(codec, line))
  }

  /** What a whole text yields. */
  function FeedText(codec: Codec, text: string): Assembly {
    FeedLines(Feeder(codec), NEW, LinesOf(text))
  }

  /** The streaming call: the line loop around the assembler. */
  method RunStreaming(codec: Codec, chunks: seq<string>) returns (r: ChatResponse, deltas: seq<Delta>)
    ensures var a := FeedText(codec, Concat(chunks)); r == FinishOf(a) && deltas == a.deltas
  {
    var a, _ := Pump(chunks, NEW, Feeder(codec));
    r, deltas := FinishOf(a), a.deltas;
  }
}
