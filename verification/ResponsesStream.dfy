/** ChatGPT Responses streams (adapters/openai_chatgpt.rs). */
module ResponsesStream {
  import opened Text
  import opened Json
  import opened LineFraming

  const EVENT := "data:"
  const DONE := "[DONE]"

  function CallFromItem(item: Value): ToolCall {
    var id := if item.At("call_id").Str? then item.At("call_id").s else item.At("id").StrOr("");
    ToolCall(id, item.At("name").StrOr(""), item.At("arguments").StrOr("{}"))
  }

  predicate IsCall(item: Value) {
    item.At("type") == Str("function_call")
  }

  function CallsIn(items: seq<Value>): seq<ToolCall> {
    if items == [] then []
    else (if IsCall(items[0]) then [CallFromItem(items[0])] else []) + CallsIn(items[1..])
  }

  function TextOfParts(parts: seq<Value>): string {
    if parts == [] then "" else parts[0].At("text").StrOr("") + TextOfParts(parts[1..])
  }

  function TextOfItems(items: seq<Value>): string {
    if items == [] then ""
    else
      (if items[0].At("type") == Str("message") then TextOfParts(items[0].At("content").Elements()) else "")
      + TextOfItems(items[1..])
  }

  function UsageOf(usage: Value): Usage {
    Usage(usage.At("input_tokens").AsU64(), usage.At("output_tokens").AsU64())
  }

  // ---- events --------------------------------------------------------------------------

  /** A completed response carries its text, if it has any, its calls and its usage. */
  datatype Event =
    | TextDelta(text: string)
    | ReasoningDelta(text: string)
    | CallDone(call: ToolCall)
    | Completed(whole: Option<string>, calls: seq<ToolCall>, usage: Usage)
    | Ignored

  function OutputText(response: Value): Option<string> {
    var text := TextOfItems(response.At("output").Elements());
    if text == "" then None else Some(text)
  }

  function EventOf(v: Value): Event {
    var kind := v.At("type").StrOr("");
    if kind == "response.output_text.delta" then TextDelta(v.At("delta").StrOr(""))
    else if kind == "response.reasoning_summary_text.delta" then ReasoningDelta(v.At("delta").StrOr(""))
    else if kind == "response.output_item.done" then
      if IsCall(v.At("item")) then CallDone(CallFromItem(v.At("item"))) else Ignored
    else if kind == "response.completed" then
      var response := v.At("response");
      Completed(OutputText(response), CallsIn(response.At("output").Elements()), UsageOf(response.At("usage")))
    else Ignored
  }

  /** The value a line carries, if it is a data line that parses. */
  function LineValue(codec: Codec, line: string): Option<Value> {
    match StripPrefix(TrimStart(line), EVENT)
    case None => None
    case Some(rest) => if Trim(rest) == "" || Trim(rest) == DONE then None else codec.parse(Trim(rest))
  }

  function EventIn(value: Option<Value>): Event {
    match value case Some(v) => EventOf(v) case None => Ignored
  }

  /** How lines are read as events. */
  function Reader(codec: Codec): string -> Event {
    line => EventIn(LineValue(codec, line))
  }

  /** The assembler's fields, and the deltas it forwarded. */
  datatype Assembly = Assembly(delta: string, finalText: Option<string>, calls: seq<ToolCall>, streamed: seq<ToolCall>,
                               usage: Usage, deltas: seq<Delta>)

  const NEW := Assembly("", None, [], [], NO_USAGE, [])

  function Heard(a: Assembly, e: Event): Assembly {
    match e
    case TextDelta(text) =>
      if text == "" then a else a.(delta := a.delta + text, deltas := a.deltas + [Delta(text, false)])
    case ReasoningDelta(text) => if text == "" then a else a.(deltas := a.deltas + [Delta(text, true)])
    case CallDone(call) => a.(streamed := a.streamed + [call])
    case Completed(whole, calls, usage) =>
      a.(finalText := if whole.Some? then whole else a.finalText, calls := calls, usage := usage)
    case Ignored => a
  }

  function HeardAll(a: Assembly, es: seq<Event>): Assembly {
    Fold(Heard, a, es)
  }

  function FinishOf(a: Assembly): ChatResponse {
    ChatResponse(if a.finalText.Some? && a.finalText.value != "" then a.finalText.value else a.delta,
                 NonEmpty(if a.calls == [] then a.streamed else a.calls), a.usage)
  }

  /** The assembler: its fields change in place as lines arrive. */
  class Stream {
    var delta: string
    var finalText: Option<string>
    var calls: seq<ToolCall>
    var streamed: seq<ToolCall>
    var usage: Usage
    var deltas: seq<Delta>

    function State(): Assembly
      reads this
    {
      Assembly(delta, finalText, calls, streamed, usage, deltas)
    }

    constructor ()
      ensures State() == NEW
    {
      delta, finalText, calls, streamed, usage, deltas := "", None, [], [], NO_USAGE, [];
    }

    method FeedLine(codec: Codec, line: string)
      modifies this
      ensures State() == Heard(old(State()), Reader(codec)(line))
    {
      var parsed := ReadLine(codec, line);
      FeedParsed(parsed);
    }

    static method ReadLine(codec: Codec, line: string) returns (parsed: Option<Value>)
      ensures parsed == LineValue(codec, line)
    {
      var rest := StripPrefix(TrimStart(line), EVENT);
      if rest.None? {
        return None;
      }
      var payload := Trim(rest.value);
      if payload == "" || payload == DONE {
        return None;
      }
      parsed := codec.parse(payload);
    }

    method FeedParsed(parsed: Option<Value>)
      modifies this
      ensures State() == Heard(old(State()), EventIn(parsed))
    {
      if parsed.Some? {
        FeedEvent(parsed.value);
      }
    }

    method FeedEvent(ev: Value)
      modifies this
      ensures State() == Heard(old(State()), EventOf(ev))
    {
      var kind := ev.At("type").StrOr("");
      if kind == "response.output_text.delta" {
        var d := ev.At("delta").StrOr("");
        if d != "" {
          delta := delta + d;
          deltas := deltas + [Delta(d, false)];
        }
      } else if kind == "response.reasoning_summary_text.delta" {
        var d := ev.At("delta").StrOr("");
        if d != "" {
          deltas := deltas + [Delta(d, true)];
        }
      } else if kind == "response.output_item.done" {
        if IsCall(ev.At("item")) {
          streamed := streamed + [CallFromItem(ev.At("item"))];
        }
      } else if kind == "response.completed" {
        var response := ev.At("response");
        var text := OutputText(response);
        if text.Some? {
          finalText := text;
        }
        calls := CallsIn(response.At("output").Elements());
        usage := UsageOf(response.At("usage"));
      }
    }
  }

  /** Lines folded as the events they are read as. */
  function Feeder(read: string -> Event): (Assembly, string) -> Assembly {
    (a, line) => Heard(a, read(line))
  }

  /** What a whole text yields. */
  function FeedText(read: string -> Event, text: string): Assembly {
    FlushTail(Feeder(read), FeedLines(Feeder(read), NEW, LinesOf(text)), TailOf(text))
  }

  /** The streaming call: the line loop, then an unterminated last line. */
  method RunResponses(codec: Codec, chunks: seq<string>) returns (r: ChatResponse, deltas: seq<Delta>)
    ensures var a := FeedText(Reader(codec), Concat(chunks)); r == FinishOf(a) && deltas == a.deltas
  {
    var a := PumpAndFlush(chunks, NEW, Feeder(Reader(codec)));
    r, deltas := FinishOf(a), a.deltas;
  }

  // ---- what the answer is --------------------------------------------------------------

  /** The text of the last completed event that has any. */
  function TerminalText(es: seq<Event>): Option<string> {
    if es == [] then None
    else
      var e := es[|es| - 1];
      if e.Completed? && e.whole.Some? then e.whole else TerminalText(es[..|es| - 1])
  }

  /** The calls and usage of the last completed event. */
  function TerminalCalls(es: seq<Event>): seq<ToolCall> {
    if es == [] then []
    else if es[|es| - 1].Completed? then es[|es| - 1].calls else TerminalCalls(es[..|es| - 1])
  }

  function StreamedCalls(es: seq<Event>): seq<ToolCall> {
    if es == [] then []
    else
      var e, before := es[|es| - 1], StreamedCalls(es[..|es| - 1]);
      if e.CallDone? then before + [e.call] else before
  }

  function StreamedText(es: seq<Event>): string {
    if es == [] then ""
    else
      var e, before := es[|es| - 1], StreamedText(es[..|es| - 1]);
      if e.TextDelta? then before + e.text else before
  }

  /** A completed event carries either no text or some. */
  predicate TextsNonEmpty(es: seq<Event>) {
    forall e | e in es && e.Completed? :: e.whole != Some("")
  }

  lemma {:induction false} AssemblyHolds(es: seq<Event>)
    requires TextsNonEmpty(es)
    ensures var a := HeardAll(NEW, es);
      && a.delta == StreamedText(es) == AnswerText(a.deltas)
      && a.finalText == TerminalText(es) && a.finalText != Some("")
      && a.calls == TerminalCalls(es) && a.streamed == StreamedCalls(es)
  {
    if es != [] {
      var before, e := es[..|es| - 1], es[|es| - 1];
      assert e in es;
      AssemblyHolds(before);
      var a := HeardAll(NEW, before);
      if e.TextDelta? {
        AnswerTextSnoc(a.deltas, Delta(e.text, false));
        assert e.text == "" ==> a.delta + e.text == a.delta;
      } else if e.ReasoningDelta? {
        AnswerTextSnoc(a.deltas, Delta(e.text, true));
      }
    }
  }

  function EventsOf(read: string -> Event, lines: seq<string>): seq<Event> {
    if lines == [] then [] else [read(lines[0])] + EventsOf(read, lines[1..])
  }

  lemma {:induction false} LinesAreEvents(read: string -> Event, a: Assembly, lines: seq<string>)
    ensures FeedLines(Feeder(read), a, lines) == HeardAll(a, EventsOf(read, Trimmed(lines)))
    decreases |lines|
  {
    if lines != [] {
      var e := read(TrimEnd(lines[0]));
      assert Trimmed(lines)[1..] == Trimmed(lines[1..]);
      LinesAreEvents(read, Heard(a, e), lines[1..]);
      FoldCons(Heard, a, e, EventsOf(read, Trimmed(lines[1..])));
    }
  }

  lemma {:induction false} EventsSnoc(read: string -> Event, lines: seq<string>, last: string)
    ensures EventsOf(read, lines + [last]) == EventsOf(read, lines) + [read(last)]
  {
    if lines == [] {
      assert lines + [last] == [last];
      assert EventsOf(read, [last]) == [read(last)] + EventsOf(read, []);
    } else {
      assert (lines + [last])[1..] == lines[1..] + [last];
      EventsSnoc(read, lines[1..], last);
    }
  }

  /** What a whole text yields is what its events yield. */
  lemma TextIsEvents(read: string -> Event, text: string)
    ensures FeedText(read, text) == HeardAll(NEW, EventsOf(read, FedLines(text)))
  {
    LinesAreEvents(read, NEW, LinesOf(text));
    var events, last := EventsOf(read, Trimmed(LinesOf(text))), Trim(TailOf(text));
    if last != "" {
      EventsSnoc(read, Trimmed(LinesOf(text)), last);
      assert (events + [read(last)])[..|events|] == events;
    }
  }

  lemma {:induction false} ReadTextsNonEmpty(codec: Codec, lines: seq<string>)
    ensures TextsNonEmpty(EventsOf(Reader(codec), lines))
  {
    if lines != [] {
      ReadTextsNonEmpty(codec, lines[1..]);
      EventInNonEmpty(LineValue(codec, lines[0]));
      assert Reader(codec)(lines[0]) == EventIn(LineValue(codec, lines[0]));
    }
  }

  lemma EventInNonEmpty(value: Option<Value>)
    ensures EventIn(value).Completed? ==> EventIn(value).whole != Some("")
  {
  }

  /** For every text: the answer is the last completed event's text when there is one and the
      streamed text otherwise, and the same preference is made for calls. What was forwarded live is
      the answer exactly when the last completed event that has a text, if any, has that one. */
  lemma TerminalIsPreferred(codec: Codec, text: string)
    ensures Prefers(FeedText(Reader(codec), text), EventsOf(Reader(codec), FedLines(text)))
  {
    ReadTextsNonEmpty(codec, FedLines(text));
    TextIsEvents(Reader(codec), text);
    EventsPrefer(EventsOf(Reader(codec), FedLines(text)));
  }

  /** The response an assembly gives, in terms of its events. */
  predicate Prefers(a: Assembly, es: seq<Event>) {
    && FinishOf(a).content == (if TerminalText(es).Some? then TerminalText(es).value else StreamedText(es))
    && FinishOf(a).toolCalls == NonEmpty(if TerminalCalls(es) == [] then StreamedCalls(es) else TerminalCalls(es))
    && (AnswerText(a.deltas) == FinishOf(a).content <==> TerminalText(es) == None || TerminalText(es) == Some(StreamedText(es)))
  }

  lemma EventsPrefer(es: seq<Event>)
    requires TextsNonEmpty(es)
    ensures Prefers(HeardAll(NEW, es), es)
  {
    AssemblyHolds(es);
  }
}
