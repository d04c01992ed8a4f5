/** Ollama completions streamed as newline-delimited JSON (adapters/ollama.rs). */
module OllamaStream {
  import opened Text
  import opened Json
  import opened LineFraming

  /** Ollama has no call ids: they number the positions in the array, skipped entries included. */
  function CallsFrom(codec: Codec, items: seq<Value>): seq<ToolCall> {
    if items == [] then []
    else
      var n := |items| - 1;
      var before, name := CallsFrom(codec, items[..n]), items[n].At("function").At("name");
      if name.Str? then before + [ToolCall(SynthesizedId(n), name.s, codec.render(items[n].At("function").At("arguments")))]
      else before
  }

  function ToolCallsOf(codec: Codec, v: Value): Option<seq<ToolCall>> {
    NonEmpty(CallsFrom(codec, v.At("message").At("tool_calls").Elements()))
  }

  /** The assembler's fields, and the deltas it forwarded. */
  datatype Assembly = Assembly(content: string, calls: Option<seq<ToolCall>>, usage: Usage, deltas: seq<Delta>)

  const NEW := Assembly("", None, NO_USAGE, [])

  function FeedValue(codec: Codec, a: Assembly, v: Value): Assembly {
    var text := v.At("message").At("content").StrOr("");
    var told := if text == "" then a else a.(content := a.content + text, deltas := a.deltas + [Delta(text, false)]);
    var called := match ToolCallsOf(codec, v) case Some(cs) => told.(calls := Some(cs)) case None => told;
    if v.At("done") == Bool(true) then called.(usage := Usage(v.At("prompt_eval_count").AsU64(), v.At("eval_count").AsU64()))
    else called
  }

  function Feed(codec: Codec, a: Assembly, line: string): Assembly {
    match codec.parse(line)
    case None => a
    case Some(v) => FeedValue(codec, a, v)
  }

  function Feeder(codec: Codec): (Assembly, string) -> Assembly {
    (a, line) => Feed(codec, a, line)
  }

  function FinishOf(a: Assembly): ChatResponse {
    ChatResponse(a.content, a.calls, a.usage)
  }

  /** The assembler: its fields change in place as lines arrive. */
  class NdjsonAssembly {
    var content: string
    var calls: Option<seq<ToolCall>>
    var usage: Usage
    var deltas: seq<Delta>

    function State(): Assembly
      reads this
    {
      Assembly(content, calls, usage, deltas)
    }

    constructor ()
      ensures State() == NEW
    {
      content, calls, usage, deltas := "", None, NO_USAGE, [];
    }

    method FeedLine(codec: Codec, line: string)
      modifies this
      ensures State() == Feed(codec, old(State()), line)
    {
      var parsed := codec.parse(line);
      if parsed.None? {
        return;
      }
      var value := parsed.value;
      var text := value.At("message").At("content").StrOr("");
      if text != "" {
        content := content + text;
        deltas := deltas + [Delta(text, false)];
      }
      var found := ToolCallsOf(codec, value);
      if found.Some? {
        calls := found;
      }
      if value.At("done") == Bool(true) {
        usage := Usage(value.At("prompt_eval_count").AsU64(), value.At("eval_count").AsU64());
      }
    }
  }

  /** The streaming call: the line loop, then a final object that need not be terminated. */
  method RunStreaming(codec: Codec, chunks: seq<string>) returns (r: ChatResponse, deltas: seq<Delta>)
    ensures var a := FeedText(codec, Concat(chunks)); r == FinishOf(a) && deltas == a.deltas
    ensures r.content == AnswerText(deltas)
  {
    var a := PumpAndFlush(chunks, NEW, Feeder(codec));
    ContentIsDeltas(codec, Concat(chunks));
    r, deltas := FinishOf(a), a.deltas;
  }

  /** What a whole text yields. */
  function FeedText(codec: Codec, text: string): Assembly {
    FlushTail(Feeder(codec),
              FeedLines(Feeder(codec), NEW, LinesOf(text)), TailOf(text))
  }

  lemma FeedOk(codec: Codec, a: Assembly, line: string)
    requires AnswerText(a.deltas) == a.content
    ensures var b := Feed(codec, a, line); AnswerText(b.deltas) == b.content
  {
    if codec.parse(line).Some? {
      AnswerTextSnoc(a.deltas, Delta(codec.parse(line).value.At("message").At("content").StrOr(""), false));
    }
  }

  lemma {:induction false} LinesOk(codec: Codec, a: Assembly, lines: seq<string>)
    requires AnswerText(a.deltas) == a.content
    ensures var b := FeedLines(Feeder(codec), a, lines); AnswerText(b.deltas) == b.content
    decreases |lines|
  {
    if lines != [] {
      FeedOk(codec, a, TrimEnd(lines[0]));
      LinesOk(codec, Feed(codec, a, TrimEnd(lines[0])), lines[1..]);
    }
  }

  /** For every text, the content is the answer forwarded. */
  lemma ContentIsDeltas(codec: Codec, text: string)
    ensures var a := FeedText(codec, text); AnswerText(a.deltas) == a.content
  {
    LinesOk(codec, NEW, LinesOf(text));
    FeedOk(codec, FeedLines(Feeder(codec), NEW, LinesOf(text)), Trim(TailOf(text)));
  }
}
