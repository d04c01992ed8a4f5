/** Gemini generations, decoded whole and decoded from a stream (adapters/gemini.rs, and the same
    fold behind the Code Assist envelope of adapters/gemini_oauth.rs). */
module GeminiStream {
  import opened Text
  import opened Json
  import opened LineFraming

  function PartsOf(value: Value): seq<Value> {
    value.At("candidates").Nth(0).At("content").At("parts").Elements()
  }

  function UsageOf(value: Value): Usage {
    Usage(value.At("usageMetadata").At("promptTokenCount").AsU64(), value.At("usageMetadata").At("candidatesTokenCount").AsU64())
  }

  /** Ids are synthesized from the number of calls before. */
  function CallOf(codec: Codec, n: nat, call: Value): ToolCall {
    ToolCall(SynthesizedId(n), call.At("name").StrOr(""), codec.render(call.At("args")))
  }

  // ---- the blocking decoder ------------------------------------------------------------

  function BlockingContent(parts: seq<Value>): string {
    if parts == [] then "" else BlockingContent(parts[..|parts| - 1]) + parts[|parts| - 1].At("text").StrOr("")
  }

  function BlockingCalls(codec: Codec, parts: seq<Value>): seq<ToolCall> {
    if parts == [] then []
    else
      var calls := BlockingCalls(codec, parts[..|parts| - 1]);
      match parts[|parts| - 1].Get("functionCall")
      case Some(call) => calls + [CallOf(codec, |calls|, call)]
      case None => calls
  }

  function Blocking(codec: Codec, value: Value): ChatResponse {
    ChatResponse(BlockingContent(PartsOf(value)), NonEmpty(BlockingCalls(codec, PartsOf(value))), UsageOf(value))
  }

  method ParseResponse(codec: Codec, value: Value) returns (r: ChatResponse)
    ensures r == Blocking(codec, value)
  {
    var parts := PartsOf(value);
    var content, calls := "", [];
    for k := 0 to |parts|
      invariant content == BlockingContent(parts[..k]) && calls == BlockingCalls(codec, parts[..k])
    {
      assert parts[..k + 1][..k] == parts[..k];
      content := content + parts[k].At("text").StrOr("");
      var call := parts[k].Get("functionCall");
      if call.Some? {
        calls := calls + [CallOf(codec, |calls|, call.value)];
      }
    }
    assert parts[..|parts|] == parts;
    r := ChatResponse(content, NonEmpty(calls), UsageOf(value));
  }

  // ---- the stream ----------------------------------------------------------------------

  /** The assembler's fields, and the deltas it forwarded. */
  datatype Assembly = Assembly(content: string, calls: seq<ToolCall>, usage: Usage, deltas: seq<Delta>)

  const NEW := Assembly("", [], NO_USAGE, [])

  function AddPart(codec: Codec, a: Assembly, part: Value): Assembly {
    var text := part.At("text").StrOr("");
    var told := if text == "" then a else a.(content := a.content + text, deltas := a.deltas + [Delta(text, false)]);
    match part.Get("functionCall")
    case Some(call) => if call.Null? then told else told.(calls := a.calls + [CallOf(codec, |a.calls|, call)])
    case None => told
  }

  function AddParts(codec: Codec, a: Assembly, parts: seq<Value>): Assembly {
    Fold((b: Assembly, part: Value) => AddPart(codec, b, part), a, parts)
  }

  function Latest(now: Option<Uint64>, before: Option<Uint64>): Option<Uint64> {
    if now.Some? then now else before
  }

  function FeedValue(codec: Codec, a: Assembly, value: Value): Assembly {
    var told, u := AddParts(codec, a, PartsOf(value)), UsageOf(value);
    told.(usage := Usage(Latest(u.inputTokens, a.usage.inputTokens), Latest(u.outputTokens, a.usage.outputTokens)))
  }

  function FeedValues(codec: Codec, a: Assembly, values: seq<Value>): Assembly {
    Fold((b: Assembly, value: Value) => FeedValue(codec, b, value), a, values)
  }

  /** The value of a line, if it is a data line that parses; `unwrap` opens an envelope. */
  function LineValue(codec: Codec, unwrap: Value -> Value, line: string): Option<Value> {
    match StripPrefix(line, DATA)
    case None => None
    case Some(data) => match codec.parse(data) case Some(v) => Some(unwrap(v)) case None => None
  }

  function Feed(codec: Codec, unwrap: Value -> Value, a: Assembly, line: string): Assembly {
    match LineValue(codec, unwrap, line)
    case None => a
    case Some(v) => FeedValue(codec, a, v)
  }

  function FinishOf(a: Assembly): ChatResponse {
    ChatResponse(a.content, NonEmpty(a.calls), a.usage)
  }

  /** The assembler: its fields change in place as chunks arrive. */
  class Stream {
    var content: string
    var calls: seq<ToolCall>
    var usage: Usage
    var deltas: seq<Delta>

    function State(): Assembly
      reads this
    {
      Assembly(content, calls, usage, deltas)
    }

    constructor ()
      ensures State() == NEW
    {
      content, calls, usage, deltas := "", [], NO_USAGE, [];
    }

    method FeedLine(codec: Codec, line: string)
      modifies this
      ensures State() == Feed(codec, v => v, old(State()), line)
    {
      var data := StripPrefix(line, DATA);
      if data.None? {
        return;
      }
      var value := codec.parse(data.value);
      if value.Some? {
        FoldValue(codec, value.value);
      }
    }

    method FoldValue(codec: Codec, value: Value)
      modifies this
      ensures State() == FeedValue(codec, old(State()), value)
    {
      var parts := PartsOf(value);
      for k := 0 to |parts|
        invariant State() == AddParts(codec, old(State()), parts[..k])
      {
        assert parts[..k + 1][..k] == parts[..k];
        var text := parts[k].At("text").StrOr("");
        if text != "" {
          content := content + text;
          deltas := deltas + [Delta(text, false)];
        }
        var call := parts[k].Get("functionCall");
        if call.Some? && !call.value.Null? {
          calls := calls + [CallOf(codec, |calls|, call.value)];
        }
      }
      assert parts[..|parts|] == parts;
      PartsKeepUsage(codec, old(State()), parts);
      var u := UsageOf(value);
      if u.inputTokens.Some? {
        usage := usage.(inputTokens := u.inputTokens);
      }
      if u.outputTokens.Some? {
        usage := usage.(outputTokens := u.outputTokens);
      }
    }
  }

  lemma {:induction false} PartsKeepUsage(codec: Codec, a: Assembly, parts: seq<Value>)
    ensures AddParts(codec, a, parts).usage == a.usage
  {
    if parts != [] {
      PartsKeepUsage(codec, a, parts[..|parts| - 1]);
    }
  }

  function Feeder(codec: Codec, unwrap: Value -> Value): (Assembly, string) -> Assembly {
    (a, line) => Feed(codec, unwrap, a, line)
  }

  /** What a whole text yields. */
  function FeedText(codec: Codec, unwrap: Value -> Value, text: string): Assembly {
    FeedLines(Feeder(codec, unwrap), NEW, LinesOf(text))
  }

  /** The streaming call: the line loop around the assembler. */
  method RunStreaming(codec: Codec, unwrap: Value -> Value, chunks: seq<string>) returns (r: ChatResponse, deltas: seq<Delta>)
    ensures var a := FeedText(codec, unwrap, Concat(chunks)); r == FinishOf(a) && deltas == a.deltas
  {
    var a, _ := Pump(chunks, NEW, Feeder(codec, unwrap));
    r, deltas := FinishOf(a), a.deltas;
  }

  // ---- streaming equals blocking -------------------------------------------------------

  /** The parts of all chunks, in order. */
  function AllParts(values: seq<Value>): seq<Value> {
    if values == [] then [] else AllParts(values[..|values| - 1]) + PartsOf(values[|values| - 1])
  }

  /** Each count as last reported. */
  function LastUsage(values: seq<Value>): Usage {
    if values == [] then NO_USAGE
    else
      var before, u := LastUsage(values[..|values| - 1]), UsageOf(values[|values| - 1]);
      Usage(Latest(u.inputTokens, before.inputTokens), Latest(u.outputTokens, before.outputTokens))
  }

  predicate NoNullCall(parts: seq<Value>) {
    forall p | p in parts :: p.Get("functionCall") != Some(Null)
  }

  /** Folding part by part ignores where the chunks were cut. */
  lemma {:induction false} ChunksDoNotMatter(codec: Codec, values: seq<Value>)
    ensures var a, b := FeedValues(codec, NEW, values), AddParts(codec, NEW, AllParts(values));
      a == b.(usage := LastUsage(values))
  {
    if values != [] {
      var before, v := values[..|values| - 1], values[|values| - 1];
      ChunksDoNotMatter(codec, before);
      var b := AddParts(codec, NEW, AllParts(before));
      UsageIsCarried(codec, b, LastUsage(before), PartsOf(v));
      FoldAppend((b: Assembly, part: Value) => AddPart(codec, b, part), NEW, AllParts(before), PartsOf(v));
    }
  }

  lemma {:induction false} UsageIsCarried(codec: Codec, a: Assembly, u: Usage, parts: seq<Value>)
    ensures AddParts(codec, a.(usage := u), parts) == AddParts(codec, a, parts).(usage := u)
  {
    if parts != [] {
      UsageIsCarried(codec, a, u, parts[..|parts| - 1]);
    }
  }

  lemma PartText(codec: Codec, a: Assembly, part: Value)
    requires AnswerText(a.deltas) == a.content
    ensures var b := AddPart(codec, a, part);
      b.content == a.content + part.At("text").StrOr("") && AnswerText(b.deltas) == b.content
  {
    assert a.content + "" == a.content;
    AnswerTextSnoc(a.deltas, Delta(part.At("text").StrOr(""), false));
  }

  lemma {:induction false} ContentAgrees(codec: Codec, parts: seq<Value>)
    ensures var a := AddParts(codec, NEW, parts);
      a.content == BlockingContent(parts) && AnswerText(a.deltas) == a.content
  {
    if parts != [] {
      ContentAgrees(codec, parts[..|parts| - 1]);
      PartText(codec, AddParts(codec, NEW, parts[..|parts| - 1]), parts[|parts| - 1]);
    }
  }

  lemma NoNullSnoc(parts: seq<Value>)
    requires parts != []
    ensures NoNullCall(parts) <==> NoNullCall(parts[..|parts| - 1]) && parts[|parts| - 1].Get("functionCall") != Some(Null)
  {
    assert parts == parts[..|parts| - 1] + [parts[|parts| - 1]];
  }

  lemma PartCalls(codec: Codec, a: Assembly, part: Value)
    ensures var call := part.Get("functionCall");
      AddPart(codec, a, part).calls
      == if call.None? || call == Some(Null) then a.calls else a.calls + [CallOf(codec, |a.calls|, call.value)]
  {
  }

  lemma {:induction false} CallsAgree(codec: Codec, parts: seq<Value>)
    ensures var calls, blocking := AddParts(codec, NEW, parts).calls, BlockingCalls(codec, parts);
      && |calls| <= |blocking|
      && (if NoNullCall(parts) then calls == blocking else |calls| < |blocking|)
  {
    if parts != [] {
      var before, part := parts[..|parts| - 1], parts[|parts| - 1];
      CallsAgree(codec, before);
      NoNullSnoc(parts);
      PartCalls(codec, AddParts(codec, NEW, before), part);
    }
  }

  /** However a parts list is cut into chunks, the stream gives the content the blocking decoder
      gives on the uncut list, which is also the answer forwarded live; and it gives the same tool
      calls, synthesized ids included, exactly when no part carries a null `functionCall`. */
  lemma StreamingAgreesIff(codec: Codec, values: seq<Value>, whole: Value)
    requires AllParts(values) == PartsOf(whole)
    ensures var a, blocking := FeedValues(codec, NEW, values), Blocking(codec, whole);
      && FinishOf(a).content == blocking.content == AnswerText(a.deltas)
      && FinishOf(a).usage == LastUsage(values)
      && (FinishOf(a).toolCalls == blocking.toolCalls <==> NoNullCall(PartsOf(whole)))
  {
    ChunksDoNotMatter(codec, values);
    ContentAgrees(codec, PartsOf(whole));
    CallsAgree(codec, PartsOf(whole));
  }

  // ---- from network chunks -------------------------------------------------------------

  function ValuesOf(codec: Codec, unwrap: Value -> Value, lines: seq<string>): seq<Value> {
    if lines == [] then []
    else
      (match LineValue(codec, unwrap, TrimEnd(lines[0])) case Some(v) => [v] case None => [])
      + ValuesOf(codec, unwrap, lines[1..])
  }

  lemma {:induction false} LinesAreValues(codec: Codec, unwrap: Value -> Value, a: Assembly, lines: seq<string>)
    ensures FeedLines(Feeder(codec, unwrap), a, lines)
         == FeedValues(codec, a, ValuesOf(codec, unwrap, lines))
    decreases |lines|
  {
    if lines != [] {
      var v, rest := LineValue(codec, unwrap, TrimEnd(lines[0])), ValuesOf(codec, unwrap, lines[1..]);
      LinesAreValues(codec, unwrap, Feed(codec, unwrap, a, TrimEnd(lines[0])), lines[1..]);
      if v.Some? {
        FoldCons((b: Assembly, value: Value) => FeedValue(codec, b, value), a, v.value, rest);
      } else {
        assert [] + rest == rest;
      }
    }
  }

  /** End to end: the streaming call over any chunking of lines whose parts are those of one reply
      answers like the blocking call on that reply. */
  method StreamReply(codec: Codec, unwrap: Value -> Value, chunks: seq<string>, ghost whole: Value)
    returns (r: ChatResponse, deltas: seq<Delta>)
    requires AllParts(ValuesOf(codec, unwrap, LinesOf(Concat(chunks)))) == PartsOf(whole)
    ensures r.content == Blocking(codec, whole).content == AnswerText(deltas)
    ensures r.toolCalls == Blocking(codec, whole).toolCalls <==> NoNullCall(PartsOf(whole))
    ensures r.usage == LastUsage(ValuesOf(codec, unwrap, LinesOf(Concat(chunks))))
  {
    r, deltas := RunStreaming(codec, unwrap, chunks);
    ghost var lines := LinesOf(Concat(chunks));
    LinesAreValues(codec, unwrap, NEW, lines);
    StreamingAgreesIff(codec, ValuesOf(codec, unwrap, lines), whole);
  }
}
