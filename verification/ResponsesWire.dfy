/** The Responses protocol as it is printed, which the decoder of adapters/openai_chatgpt.rs reads back. */
module ResponsesWire {
  import opened Text
  import opened Json
  import opened LineFraming
  import opened WireLines
  import opened ResponsesStream

  /** An item of a response's output. */
  datatype Item = Message(parts: seq<string>) | FunctionCall(call: ToolCall) | Thought

  /** What an event says. */
  datatype Sent =
    | SentText(text: string)
    | SentReasoning(text: string)
    | SentItem(item: Item)
    | SentResponse(items: seq<Item>, usage: Usage)
    | SentNothing

  // ---- printing ------------------------------------------------------------------------

  function WirePart(text: string): Value {
    Obj(map["type" := Str("output_text"), "text" := Str(text)])
  }

  function WireItem(item: Item): Value {
    match item
    case Message(parts) => Obj(map["type" := Str("message"), "content" := Arr(Each(WirePart, parts))])
    case FunctionCall(call) =>
      Obj(map["type" := Str("function_call"), "call_id" := Str(call.id), "name" := Str(call.name),
              "arguments" := Str(call.arguments)])
    case Thought => Obj(map["type" := Str("reasoning")])
  }

  function Counts(u: Usage): Value {
    Obj((match u.inputTokens case Some(n) => map["input_tokens" := UInt(n)] case None => map[])
        + (match u.outputTokens case Some(n) => map["output_tokens" := UInt(n)] case None => map[]))
  }

  function WireResponse(items: seq<Item>, usage: Usage): Value {
    Obj(map["output" := Arr(Each(WireItem, items)), "usage" := Counts(usage)])
  }

  function Wire(s: Sent): Value {
    match s
    case SentText(text) => Obj(map["type" := Str("response.output_text.delta"), "delta" := Str(text)])
    case SentReasoning(text) => Obj(map["type" := Str("response.reasoning_summary_text.delta"), "delta" := Str(text)])
    case SentItem(item) => Obj(map["type" := Str("response.output_item.done"), "item" := WireItem(item)])
    case SentResponse(items, usage) =>
      Obj(map["type" := Str("response.completed"), "response" := WireResponse(items, usage)])
    case SentNothing => Obj(map["type" := Str("response.created")])
  }

  // ---- meaning -------------------------------------------------------------------------

  function ItemText(item: Item): string {
    if item.Message? then Concat(item.parts) else ""
  }

  /** The texts of the message items, joined. */
  function TextOfAll(items: seq<Item>): string {
    Concat(Each(ItemText, items))
  }

  function CallsAmong(items: seq<Item>): seq<ToolCall> {
    if items == [] then [] else (if items[0].FunctionCall? then [items[0].call] else []) + CallsAmong(items[1..])
  }

  /** The event a printed one is read as. A response without text has none. */
  function Meant(s: Sent): Event {
    match s
    case SentText(text) => TextDelta(text)
    case SentReasoning(text) => ReasoningDelta(text)
    case SentItem(FunctionCall(call)) => CallDone(call)
    case SentResponse(items, usage) =>
      Completed(if TextOfAll(items) == "" then None else Some(TextOfAll(items)), CallsAmong(items), usage)
    case _ => Ignored
  }

  lemma {:induction false} PartsRead(parts: seq<string>)
    ensures TextOfParts(Each(WirePart, parts)) == Concat(parts)
  {
    if parts != [] {
      PartsRead(parts[1..]);
      assert Each(WirePart, parts)[1..] == Each(WirePart, parts[1..]);
    }
  }

  lemma ItemReads(item: Item)
    ensures var v := WireItem(item);
      && (IsCall(v) <==> item.FunctionCall?) && (item.FunctionCall? ==> CallFromItem(v) == item.call)
      && (if v.At("type") == Str("message") then TextOfParts(v.At("content").Elements()) else "") == ItemText(item)
  {
    if item.Message? {
      PartsRead(item.parts);
    }
  }

  lemma {:induction false} ItemsRead(items: seq<Item>)
    ensures TextOfItems(Each(WireItem, items)) == TextOfAll(items) && CallsIn(Each(WireItem, items)) == CallsAmong(items)
  {
    if items != [] {
      ItemReads(items[0]);
      ItemsRead(items[1..]);
      assert Each(WireItem, items)[1..] == Each(WireItem, items[1..]);
      assert Each(ItemText, items)[1..] == Each(ItemText, items[1..]);
    }
  }

  lemma ResponseReads(items: seq<Item>, usage: Usage)
    ensures EventOf(Wire(SentResponse(items, usage))) == Meant(SentResponse(items, usage))
  {
    var v := WireResponse(items, usage);
    assert v.At("output") == Arr(Each(WireItem, items)) && v.At("usage") == Counts(usage);
    assert UsageOf(Counts(usage)) == usage;
    ItemsRead(items);
  }

  lemma TextReads(text: string)
    ensures EventOf(Wire(SentText(text))) == TextDelta(text) && EventOf(Wire(SentReasoning(text))) == ReasoningDelta(text)
  {
  }

  lemma DoneReads(item: Item)
    ensures EventOf(Wire(SentItem(item))) == Meant(SentItem(item))
  {
    assert Wire(SentItem(item)).At("item") == WireItem(item);
    ItemReads(item);
  }

  /** Every event printed is read as what it means. */
  lemma EventReads(s: Sent)
    ensures EventOf(Wire(s)) == Meant(s)
  {
    match s
    case SentText(text) => TextReads(text);
    case SentReasoning(text) => TextReads(text);
    case SentItem(item) => DoneReads(item);
    case SentResponse(items, usage) => ResponseReads(items, usage);
    case SentNothing =>
  }

  /** A call without a call id is known by its item's id, and one without arguments has none to give. */
  lemma Fallbacks(id: string, name: string)
    ensures CallFromItem(Obj(map["type" := Str("function_call"), "id" := Str(id), "name" := Str(name)])) == ToolCall(id, name, "{}")
  {
  }

  /** What is read from a value of any shape. */
  lemma AnyEvent(v: Value)
    ensures var e, kind := EventOf(v), v.At("type");
      && (e.TextDelta? <==> kind == Str("response.output_text.delta"))
      && (e.ReasoningDelta? <==> kind == Str("response.reasoning_summary_text.delta"))
      && (e.CallDone? <==> kind == Str("response.output_item.done") && v.At("item").At("type") == Str("function_call"))
      && (e.Completed? <==> kind == Str("response.completed"))
      && ((e.TextDelta? || e.ReasoningDelta?) && !v.At("delta").Str? ==> e.text == "")
  {
  }

  lemma AnyItem(item: Value)
    ensures var call := CallFromItem(item);
      && (item.At("call_id").Str? ==> call.id == item.At("call_id").s)
      && (!item.At("call_id").Str? && !item.At("id").Str? ==> call.id == "")
      && (!item.At("name").Str? ==> call.name == "")
  {
  }

  // ---- lines ---------------------------------------------------------------------------

  /** A line that is blank or begins with something else than data. */
  predicate Idle(text: string) {
    text == "" || (!IsSpace(text[0]) && !("data:" <= text))
  }

  /** A line sends an event: as a data line, or, for nothing at all, as any other line. */
  predicate Sends(codec: Codec, l: WireLine, s: Sent) {
    LineOk(codec, l)
    && (l == Data(Wire(s)) || (s == SentNothing && !l.Data? && (l.Noise? ==> Idle(l.text))))
  }

  predicate SendsAll(codec: Codec, ls: seq<WireLine>, sent: seq<Sent>) {
    |ls| == |sent| && forall i | 0 <= i < |ls| :: Sends(codec, ls[i], sent[i])
  }

  predicate Visible(s: string) {
    s != "" && !IsSpace(s[0]) && !IsSpace(s[|s| - 1])
  }

  lemma TrimAfter(gap: string, s: string)
    requires AllSpace(gap) && Visible(s)
    ensures Trim(gap + s) == s
  {
    TrimPadded(gap, s, "");
    assert gap + s + "" == gap + s;
  }

  lemma PayloadAfter(prefix: string, gap: string, s: string, line: string)
    requires prefix != "" && !IsSpace(prefix[0]) && AllSpace(gap) && Visible(s) && line == prefix + (gap + s)
    ensures var rest := StripPrefix(TrimStart(TrimEnd(line + "\n")), prefix);
      rest.Some? && Trim(rest.value) == s
  {
    assert line[|line| - 1] == s[|s| - 1] && line[0] == prefix[0];
    TrimmedLine(line);
    StartsVisible(line);
    PrefixOf(prefix, gap + s);
    TrimAfter(gap, s);
  }

  lemma StartsVisible(line: string)
    requires line == "" || !IsSpace(line[0])
    ensures TrimStart(line) == line
  {
  }

  lemma PayloadOf(s: string)
    requires Visible(s)
    ensures var rest := StripPrefix(TrimStart(TrimEnd("data: " + s + "\n")), EVENT);
      rest.Some? && Trim(rest.value) == s
  {
    assert "data: " + s == "data:" + (" " + s);
    PayloadAfter("data:", " ", s, "data: " + s);
  }

  lemma IdlePrefix(prefix: string, text: string)
    requires '\n' !in prefix && prefix != "" && !(prefix <= text) && (text == "" || !IsSpace(text[0]))
    ensures StripPrefix(TrimStart(TrimEnd(text + "\n")), prefix) == None
  {
    var line := text + "\n";
    var t := TrimEnd(line);
    assert t == line[..|t|];
    if text == "" {
      BlankLine(t);
    } else {
      assert t != "" ==> t[0] == text[0];
      StartsVisible(t);
    }
    if prefix <= t {
      NoNewlineIn(prefix, text, line);
    }
  }

  lemma BlankLine(t: string)
    requires t == TrimEnd("" + "\n")
    ensures t == "" && TrimStart(t) == t
  {
  }

  lemma ValueWith(codec: Codec, line: string, payload: string)
    requires var rest := StripPrefix(TrimStart(line), EVENT); rest.Some? && Trim(rest.value) == payload
    ensures LineValue(codec, line) == if payload == "" || payload == DONE then None else codec.parse(payload)
  {
  }

  lemma DataIsValue(codec: Codec, v: Value)
    requires Prints(codec, v)
    ensures LineValue(codec, TrimEnd(Printed(codec, Data(v)))) == Some(v)
  {
    PayloadOf(codec.render(v));
    ValueWith(codec, TrimEnd(Printed(codec, Data(v))), codec.render(v));
  }

  lemma EndIsNothing(codec: Codec)
    ensures LineValue(codec, TrimEnd(Printed(codec, EndMarker))) == None
  {
    PayloadOf("[DONE]");
    ValueWith(codec, TrimEnd(Printed(codec, EndMarker)), "[DONE]");
  }

  lemma IdleIsNothing(codec: Codec, text: string)
    requires Idle(text)
    ensures LineValue(codec, TrimEnd(Printed(codec, Noise(text)))) == None
  {
    IdlePrefix(EVENT, text);
  }

  lemma LineIsEvent(codec: Codec, l: WireLine, s: Sent)
    requires Sends(codec, l, s)
    ensures Reader(codec)(TrimEnd(Printed(codec, l))) == Meant(s)
  {
    if l.Data? {
      DataIsValue(codec, l.v);
      EventReads(s);
    } else if l.EndMarker? {
      EndIsNothing(codec);
    } else {
      IdleIsNothing(codec, l.text);
    }
    ReaderIs(codec, TrimEnd(Printed(codec, l)));
  }

  lemma ReaderIs(codec: Codec, line: string)
    ensures Reader(codec)(line) == EventIn(LineValue(codec, line))
  {
  }

  function MeantAll(sent: seq<Sent>): seq<Event> {
    Each(Meant, sent)
  }

  lemma FirstEvent(read: string -> Event, lines: seq<string>, rest: seq<string>)
    requires lines != [] && rest == Trimmed(lines[1..])
    ensures EventsOf(read, Trimmed(lines)) == [read(TrimEnd(lines[0]))] + EventsOf(read, rest)
  {
    assert ([TrimEnd(lines[0])] + rest)[1..] == rest;
  }

  lemma {:induction false} EventsAre(read: string -> Event, lines: seq<string>, es: seq<Event>)
    requires |lines| == |es| && forall i | 0 <= i < |es| :: read(TrimEnd(lines[i])) == es[i]
    ensures EventsOf(read, Trimmed(lines)) == es
  {
    if lines != [] {
      EventsAre(read, lines[1..], es[1..]);
      FirstEvent(read, lines, Trimmed(lines[1..]));
      assert [es[0]] + es[1..] == es;
    }
  }

  lemma LinesAreSent(codec: Codec, ls: seq<WireLine>, sent: seq<Sent>)
    requires SendsAll(codec, ls, sent)
    ensures EventsOf(Reader(codec), Trimmed(PrintedAll(codec, ls))) == MeantAll(sent)
  {
    EachLength((l: WireLine) => Printed(codec, l), ls);
    EachLength(Meant, sent);
    forall i | 0 <= i < |sent|
      ensures Reader(codec)(TrimEnd(PrintedAll(codec, ls)[i])) == MeantAll(sent)[i]
    {
      EachAt((l: WireLine) => Printed(codec, l), ls, i);
      EachAt(Meant, sent, i);
      LineIsEvent(codec, ls[i], sent[i]);
    }
    EventsAre(Reader(codec), PrintedAll(codec, ls), MeantAll(sent));
  }

  /** The events of a printed stream are those sent. */
  lemma StreamReads(codec: Codec, ls: seq<WireLine>, sent: seq<Sent>)
    requires SendsAll(codec, ls, sent)
    ensures EventsOf(Reader(codec), FedLines(TextOf(codec, ls))) == MeantAll(sent)
  {
    forall l | l in ls
      ensures LineOk(codec, l)
    {
      var i :| 0 <= i < |ls| && ls[i] == l;
      assert Sends(codec, ls[i], sent[i]);
    }
    PrintedLines(codec, ls);
    LinesAreSent(codec, ls, sent);
    assert Trim("") == "";
  }

  // ---- end to end ----------------------------------------------------------------------

  function ForwardedBy(s: Sent): seq<Delta> {
    if s.SentText? && s.text != "" then [Delta(s.text, false)]
    else if s.SentReasoning? && s.text != "" then [Delta(s.text, true)]
    else []
  }

  /** What a stream forwards: its texts and its reasoning, as they come. */
  function Forwarded(sent: seq<Sent>): seq<Delta> {
    if sent == [] then []
    else
      Forwarded(sent[..|sent| - 1]) + ForwardedBy(sent[|sent| - 1])
  }

  function SaidBy(s: Sent): string {
    if s.SentText? then s.text else ""
  }

  function StreamedTexts(sent: seq<Sent>): string {
    Concat(Each(SaidBy, sent))
  }

  /** The text of the last response that has one. */
  function LastText(sent: seq<Sent>): Option<string> {
    if sent == [] then None
    else
      var s := sent[|sent| - 1];
      if s.SentResponse? && TextOfAll(s.items) != "" then Some(TextOfAll(s.items)) else LastText(sent[..|sent| - 1])
  }

  /** The last response. */
  function LastResponse(sent: seq<Sent>): (r: Option<Sent>)
    ensures r.Some? ==> r.value.SentResponse?
  {
    if sent == [] then None
    else if sent[|sent| - 1].SentResponse? then Some(sent[|sent| - 1])
    else LastResponse(sent[..|sent| - 1])
  }

  function StreamedItems(sent: seq<Sent>): seq<ToolCall> {
    if sent == [] then []
    else
      var before, s := StreamedItems(sent[..|sent| - 1]), sent[|sent| - 1];
      if s.SentItem? && s.item.FunctionCall? then before + [s.item.call] else before
  }

  /** The calls of the last response, or, when it has none, those streamed. */
  function CallsOfStream(sent: seq<Sent>): seq<ToolCall> {
    var last := LastResponse(sent);
    if last.Some? && CallsAmong(last.value.items) != [] then CallsAmong(last.value.items) else StreamedItems(sent)
  }

  lemma {:induction false} TextsSay(sent: seq<Sent>)
    ensures StreamedText(MeantAll(sent)) == StreamedTexts(sent)
  {
    if sent != [] {
      var n := |sent| - 1;
      EachLast(Meant, sent);
      EachLast(SaidBy, sent);
      TextsSay(sent[..n]);
      assert Each(SaidBy, sent) == Each(SaidBy, sent[..n]) + [SaidBy(sent[n])];
      ConcatSnoc(Each(SaidBy, sent[..n]), SaidBy(sent[n]));
    }
  }

  lemma {:induction false} TerminalsSay(sent: seq<Sent>)
    ensures var es := MeantAll(sent);
      && TerminalText(es) == LastText(sent) && StreamedCalls(es) == StreamedItems(sent)
      && TerminalCalls(es) == if LastResponse(sent).Some? then CallsAmong(LastResponse(sent).value.items) else []
  {
    if sent != [] {
      EachLast(Meant, sent);
      TerminalsSay(sent[..|sent| - 1]);
    }
  }

  /** What one event adds. */
  lemma EventSays(a: Assembly, s: Sent)
    ensures var b := Heard(a, Meant(s));
      b.deltas == a.deltas + ForwardedBy(s) && b.usage == if s.SentResponse? then s.usage else a.usage
  {
    match s
    case SentText(text) =>
    case SentReasoning(text) =>
    case SentItem(item) =>
    case SentResponse(items, usage) =>
    case SentNothing =>
  }

  lemma {:induction false} EventsSay(sent: seq<Sent>)
    ensures var a := HeardAll(NEW, MeantAll(sent));
      && a.deltas == Forwarded(sent)
      && a.usage == if LastResponse(sent).Some? then LastResponse(sent).value.usage else NO_USAGE
  {
    if sent != [] {
      var n := |sent| - 1;
      EachLast(Meant, sent);
      EventsSay(sent[..n]);
      EventSays(HeardAll(NEW, MeantAll(sent[..n])), sent[n]);
    }
  }

  /** End to end: whatever events are printed as lines, and however those are cut into chunks, the call
      forwards the texts and the reasoning as they come, and returns the text of the last response that
      has one, or else the text forwarded; the calls of the last response, or else those streamed; and
      the last response's counts. */
  method StreamEvents(codec: Codec, chunks: seq<string>, ghost sent: seq<Sent>, ghost ls: seq<WireLine>)
    returns (r: ChatResponse, deltas: seq<Delta>)
    requires Concat(chunks) == TextOf(codec, ls) && SendsAll(codec, ls, sent)
    ensures deltas == Forwarded(sent)
    ensures r.content == if LastText(sent).Some? then LastText(sent).value else StreamedTexts(sent)
    ensures r.toolCalls == NonEmpty(CallsOfStream(sent))
    ensures r.usage == if LastResponse(sent).Some? then LastResponse(sent).value.usage else NO_USAGE
  {
    r, deltas := RunResponses(codec, chunks);
    StreamReads(codec, ls, sent);
    EventsSay(sent);
    TextsSay(sent);
    TerminalsSay(sent);
    TextIsEvents(Reader(codec), Concat(chunks));
    TerminalIsPreferred(codec, Concat(chunks));
  }
}
