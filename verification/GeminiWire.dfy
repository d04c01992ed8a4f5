/** Gemini replies as they are printed, whole or in chunks, plain or in the Code Assist envelope, which both
    decoders of adapters/gemini.rs read back. */
module GeminiWire {
  import opened Text
  import opened Json
  import opened LineFraming
  import opened WireLines
  import opened GeminiStream

  /** What a part holds as its function call. */
  datatype Called = NoCall | NullCall | Call(name: string, args: Value)

  datatype Part = Part(text: Option<string>, called: Called)

  /** A reply, or one chunk of a streamed one. */
  datatype Chunk = Chunk(parts: seq<Part>, counts: Usage)

  function WirePart(p: Part): Value {
    Obj((match p.text case Some(text) => map["text" := Str(text)] case None => map[])
        + match p.called
          case NoCall => map[]
          case NullCall => map["functionCall" := Null]
          case Call(name, args) => map["functionCall" := Obj(map["name" := Str(name), "args" := args])])
  }

  function Counts(u: Usage): Value {
    Obj((match u.inputTokens case Some(n) => map["promptTokenCount" := UInt(n)] case None => map[])
        + (match u.outputTokens case Some(n) => map["candidatesTokenCount" := UInt(n)] case None => map[]))
  }

  function Wire(c: Chunk): Value {
    Obj(map["candidates" := Arr([Obj(map["content" := Obj(map["parts" := Arr(Each(WirePart, c.parts))])])]),
            "usageMetadata" := Counts(c.counts)])
  }

  /** The two adapters: the value itself, or what the envelope holds. */
  function Plain(v: Value): Value {
    v
  }

  function CodeAssist(v: Value): Value {
    v.At("response")
  }

  function Envelope(enveloped: bool, v: Value): Value {
    if enveloped then Obj(map["response" := v]) else v
  }

  function Unwrap(enveloped: bool): Value -> Value {
    if enveloped then CodeAssist else Plain
  }

  lemma ChunkReads(c: Chunk)
    ensures PartsOf(Wire(c)) == Each(WirePart, c.parts) && UsageOf(Wire(c)) == c.counts
  {
    var v := Wire(c);
    assert v.At("candidates").Nth(0).At("content") == Obj(map["parts" := Arr(Each(WirePart, c.parts))]);
    assert v.At("usageMetadata") == Counts(c.counts);
  }

  lemma PartReads(p: Part)
    ensures var v := WirePart(p);
      && v.At("text").StrOr("") == Said(p)
      && v.Get("functionCall") == (match p.called
                                   case NoCall => None
                                   case NullCall => Some(Null)
                                   case Call(name, args) => Some(Obj(map["name" := Str(name), "args" := args])))
  {
  }

  /** A call of any shape: a name that is missing is empty, and arguments that are missing are null. */
  lemma AnyCall(codec: Codec, n: nat, call: Value)
    ensures var c := CallOf(codec, n, call);
      && c.id == "call_" + Decimal(n) && (!call.At("name").Str? ==> c.name == "")
      && (call.Obj? && "args" in call.fields ==> c.arguments == codec.render(call.fields["args"]))
      && (!(call.Obj? && "args" in call.fields) ==> c.arguments == codec.render(Null))
  {
  }

  // ---- meaning -------------------------------------------------------------------------

  function Said(p: Part): string {
    if p.text.Some? then p.text.value else ""
  }

  function Texts(parts: seq<Part>): string {
    Concat(Each(Said, parts))
  }

  function Calls(parts: seq<Part>): seq<Part> {
    Retain(parts, (p: Part) => p.called.Call?)
  }

  predicate CallSays(codec: Codec, call: ToolCall, n: nat, p: Part) {
    p.called.Call? && call == ToolCall("call_" + Decimal(n), p.called.name, codec.render(p.called.args))
  }

  /** One call for each function call, numbered from 0, arguments printed. */
  predicate CallsSay(codec: Codec, calls: seq<ToolCall>, parts: seq<Part>) {
    && |calls| == |parts|
    && forall i | 0 <= i < |parts| :: CallSays(codec, calls[i], i, parts[i])
  }

  lemma TextsLast(parts: seq<Part>)
    requires parts != []
    ensures Texts(parts) == Texts(parts[..|parts| - 1]) + Said(parts[|parts| - 1])
  {
    var n := |parts| - 1;
    EachLast(Said, parts);
    assert Each(Said, parts) == Each(Said, parts[..n]) + [Said(parts[n])];
    ConcatSnoc(Each(Said, parts[..n]), Said(parts[n]));
  }

  lemma PartAdded(codec: Codec, a: Assembly, p: Part)
    ensures var b := AddPart(codec, a, WirePart(p));
      && b.content == a.content + Said(p) && b.usage == a.usage
      && b.calls == if p.called.Call?
                    then a.calls + [ToolCall("call_" + Decimal(|a.calls|), p.called.name, codec.render(p.called.args))]
                    else a.calls
  {
    PartReads(p);
    assert a.content + "" == a.content;
  }

  /** What the assembler holds after some parts. */
  predicate Holds(codec: Codec, a: Assembly, parts: seq<Part>) {
    a.content == Texts(parts) && CallsSay(codec, a.calls, Calls(parts))
  }

  lemma OneMoreCall(codec: Codec, calls: seq<ToolCall>, parts: seq<Part>)
    requires parts != [] && CallsSay(codec, calls, Calls(parts[..|parts| - 1]))
    ensures var p := parts[|parts| - 1];
      CallsSay(codec, if p.called.Call?
                      then calls + [ToolCall("call_" + Decimal(|calls|), p.called.name, codec.render(p.called.args))]
                      else calls, Calls(parts))
  {
    var n, p := |parts| - 1, parts[|parts| - 1];
    if p.called.Call? {
      CallsSaySnoc(codec, calls, Calls(parts[..n]), ToolCall("call_" + Decimal(|calls|), p.called.name, codec.render(p.called.args)), p);
    }
  }

  lemma CallsSaySnoc(codec: Codec, calls: seq<ToolCall>, parts: seq<Part>, call: ToolCall, p: Part)
    requires CallsSay(codec, calls, parts) && CallSays(codec, call, |calls|, p)
    ensures CallsSay(codec, calls + [call], parts + [p])
  {
  }

  lemma OneMorePart(codec: Codec, a: Assembly, parts: seq<Part>)
    requires parts != [] && Holds(codec, a, parts[..|parts| - 1])
    ensures Holds(codec, AddPart(codec, a, WirePart(parts[|parts| - 1])), parts)
  {
    TextsLast(parts);
    PartAdded(codec, a, parts[|parts| - 1]);
    OneMoreCall(codec, a.calls, parts);
  }

  lemma PartsLast(codec: Codec, a: Assembly, values: seq<Value>)
    requires values != []
    ensures AddParts(codec, a, values) == AddPart(codec, AddParts(codec, a, values[..|values| - 1]), values[|values| - 1])
  {
  }

  lemma {:induction false} PartsAdded(codec: Codec, parts: seq<Part>)
    ensures Holds(codec, AddParts(codec, NEW, Each(WirePart, parts)), parts)
  {
    if parts != [] {
      var n := |parts| - 1;
      EachLast(WirePart, parts);
      PartsAdded(codec, parts[..n]);
      PartsLast(codec, NEW, Each(WirePart, parts));
      OneMorePart(codec, AddParts(codec, NEW, Each(WirePart, parts[..n])), parts);
    }
  }

  // ---- the stream ----------------------------------------------------------------------

  function AllParts(cs: seq<Chunk>): seq<Part> {
    if cs == [] then [] else AllParts(cs[..|cs| - 1]) + cs[|cs| - 1].parts
  }

  /** Each count as last reported. */
  function LastInput(cs: seq<Chunk>): Option<Uint64> {
    if cs == [] then None
    else if cs[|cs| - 1].counts.inputTokens.Some? then cs[|cs| - 1].counts.inputTokens
    else LastInput(cs[..|cs| - 1])
  }

  function LastOutput(cs: seq<Chunk>): Option<Uint64> {
    if cs == [] then None
    else if cs[|cs| - 1].counts.outputTokens.Some? then cs[|cs| - 1].counts.outputTokens
    else LastOutput(cs[..|cs| - 1])
  }

  /** A chunk that says nothing. */
  const NOTHING := Chunk([], NO_USAGE)

  lemma {:induction false} ChunksRead(cs: seq<Chunk>)
    ensures GeminiStream.AllParts(Each(Wire, cs)) == Each(WirePart, AllParts(cs))
    ensures LastUsage(Each(Wire, cs)) == Usage(LastInput(cs), LastOutput(cs))
  {
    if cs != [] {
      var n := |cs| - 1;
      EachLast(Wire, cs);
      ChunksRead(cs[..n]);
      ChunkReads(cs[n]);
      EachAppend(WirePart, AllParts(cs[..n]), cs[n].parts);
    }
  }

  /** The assembler over printed chunks. */
  lemma ChunksFed(codec: Codec, cs: seq<Chunk>)
    ensures var a := FeedValues(codec, NEW, Each(Wire, cs));
      && Holds(codec, a, AllParts(cs)) && a.usage == Usage(LastInput(cs), LastOutput(cs))
      && AnswerText(a.deltas) == a.content
  {
    ChunksRead(cs);
    ChunksDoNotMatter(codec, Each(Wire, cs));
    PartsAdded(codec, AllParts(cs));
    ContentAgrees(codec, Each(WirePart, AllParts(cs)));
  }

  /** A data line carries a chunk, in its envelope or not; other lines carry nothing. */
  predicate Sends(codec: Codec, enveloped: bool, l: WireLine, c: Chunk) {
    LineOk(codec, l) && l == Data(Envelope(enveloped, Wire(c)))
  }

  /** The data lines carry the chunks, in order. */
  predicate SendsAll(codec: Codec, enveloped: bool, ls: seq<WireLine>, cs: seq<Chunk>) {
    if ls == [] then cs == []
    else if ls[0].Data? then cs != [] && Sends(codec, enveloped, ls[0], cs[0]) && SendsAll(codec, enveloped, ls[1..], cs[1..])
    else LineOk(codec, ls[0]) && SendsAll(codec, enveloped, ls[1..], cs)
  }

  lemma EnvelopeOpens(enveloped: bool, v: Value)
    ensures Unwrap(enveloped)(Envelope(enveloped, v)) == v
  {
  }

  lemma LineIsChunk(codec: Codec, enveloped: bool, l: WireLine, c: Chunk)
    requires LineOk(codec, l) && (l.Data? ==> Sends(codec, enveloped, l, c))
    ensures LineValue(codec, Unwrap(enveloped), TrimEnd(Printed(codec, l))) == if l.Data? then Some(Wire(c)) else None
  {
    match l
    case Data(v) =>
      DataPayload(codec, v);
      EnvelopeOpens(enveloped, Wire(c));
    case EndMarker => EndPayload(codec);
    case Noise(text) => NoisePayload(codec, text);
  }

  lemma {:induction false} LinesAreChunks(codec: Codec, enveloped: bool, ls: seq<WireLine>, cs: seq<Chunk>)
    requires SendsAll(codec, enveloped, ls, cs)
    ensures ValuesOf(codec, Unwrap(enveloped), PrintedAll(codec, ls)) == Each(Wire, cs) && LinesOk(codec, ls)
  {
    if ls != [] {
      var lines := PrintedAll(codec, ls);
      assert lines[1..] == PrintedAll(codec, ls[1..]) && lines[0] == Printed(codec, ls[0]);
      if ls[0].Data? {
        LineIsChunk(codec, enveloped, ls[0], cs[0]);
        LinesAreChunks(codec, enveloped, ls[1..], cs[1..]);
      } else {
        LineIsChunk(codec, enveloped, ls[0], NOTHING);
        LinesAreChunks(codec, enveloped, ls[1..], cs);
        assert [] + Each(Wire, cs) == Each(Wire, cs);
      }
      assert forall l | l in ls :: l == ls[0] || l in ls[1..];
    }
  }

  lemma TextFed(codec: Codec, enveloped: bool, cs: seq<Chunk>, ls: seq<WireLine>)
    requires SendsAll(codec, enveloped, ls, cs)
    ensures FeedText(codec, Unwrap(enveloped), TextOf(codec, ls)) == FeedValues(codec, NEW, Each(Wire, cs))
  {
    LinesAreChunks(codec, enveloped, ls, cs);
    PrintedLines(codec, ls);
    LinesAreValues(codec, Unwrap(enveloped), NEW, PrintedAll(codec, ls));
  }

  lemma FinishSays(codec: Codec, a: Assembly, parts: seq<Part>)
    requires Holds(codec, a, parts)
    ensures var r := FinishOf(a);
      && r.content == Texts(parts) && r.usage == a.usage && r.toolCalls != Some([])
      && CallsSay(codec, if r.toolCalls.Some? then r.toolCalls.value else [], Calls(parts))
  {
  }

  /** End to end, for both adapters: whatever chunks are printed as lines with other lines between them, and
      however those are cut for the network, the streaming call returns the texts of all parts joined,
      one call for each function call in order, numbered from 0, and each count as last reported. */
  method StreamChunks(codec: Codec, enveloped: bool, chunks: seq<string>, ghost cs: seq<Chunk>, ghost ls: seq<WireLine>)
    returns (r: ChatResponse, deltas: seq<Delta>)
    requires Concat(chunks) == TextOf(codec, ls) && SendsAll(codec, enveloped, ls, cs)
    ensures r.content == Texts(AllParts(cs)) == AnswerText(deltas) && r.usage == Usage(LastInput(cs), LastOutput(cs))
    ensures r.toolCalls != Some([])
    ensures CallsSay(codec, if r.toolCalls.Some? then r.toolCalls.value else [], Calls(AllParts(cs)))
  {
    r, deltas := RunStreaming(codec, Unwrap(enveloped), chunks);
    TextFed(codec, enveloped, cs, ls);
    ChunksFed(codec, cs);
    FinishSays(codec, FeedValues(codec, NEW, Each(Wire, cs)), AllParts(cs));
  }

  // ---- the blocking call ---------------------------------------------------------------

  predicate NoNull(parts: seq<Part>) {
    forall p | p in parts :: !p.called.NullCall?
  }

  lemma NoNullIff(parts: seq<Part>)
    ensures NoNullCall(Each(WirePart, parts)) <==> NoNull(parts)
  {
    EachLength(WirePart, parts);
    EachMember(WirePart, parts);
    forall i | 0 <= i < |parts|
      ensures Each(WirePart, parts)[i].Get("functionCall") == Some(Null) <==> parts[i].called.NullCall?
    {
      EachAt(WirePart, parts, i);
      PartReads(parts[i]);
    }
    if NoNullCall(Each(WirePart, parts)) {
      forall p | p in parts
        ensures !p.called.NullCall?
      {
        var i :| 0 <= i < |parts| && parts[i] == p;
        assert Each(WirePart, parts)[i] in Each(WirePart, parts);
      }
    }
  }

  /** The blocking call on a printed reply answers with its texts and counts, and with its calls unless a
      part has a null call, which it takes for one. */
  lemma BlockingReads(codec: Codec, c: Chunk)
    ensures var r := Blocking(codec, Wire(c));
      && r.content == Texts(c.parts) && r.usage == c.counts
      && (NoNull(c.parts) ==> CallsSay(codec, if r.toolCalls.Some? then r.toolCalls.value else [], Calls(c.parts)))
      && (!NoNull(c.parts) ==> r.toolCalls.Some? && |r.toolCalls.value| > |Calls(c.parts)|)
  {
    ChunkReads(c);
    PartsAdded(codec, c.parts);
    ContentAgrees(codec, Each(WirePart, c.parts));
    CallsAgree(codec, Each(WirePart, c.parts));
    NoNullIff(c.parts);
  }
}
