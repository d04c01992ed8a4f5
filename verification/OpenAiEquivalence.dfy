/** Streaming against the blocking call in the OpenAI shape: `oai_chat_stream` is documented to assemble
    the response `oai_chat` would return (adapters/openai_compatible.rs). */
module OpenAiEquivalence {
  import opened Text
  import opened Json
  import opened LineFraming
  import opened OpenAiStream
  import ChunkLimit

  const FUNCTION := "function"

  // ---- the blocking call ---------------------------------------------------------------

  /** A call with its `type`, which only the blocking call reads. */
  datatype TypedCall = TypedCall(kind: string, call: ToolCall)

  datatype Completion = Completion(content: string, calls: seq<TypedCall>, usage: Usage)

  /** A member that may be absent but not of another type. */
  function OptionalStr(v: Value, key: string, default: string): Option<string> {
    match v.Get(key)
    case None => Some(default)
    case Some(member) => member.AsStr()
  }

  /** The derived decoder of one tool call. */
  function DecodeCall(v: Value): Option<TypedCall> {
    var f := v.At("function");
    var kind, arguments := OptionalStr(v, "type", FUNCTION), OptionalStr(f, "arguments", "");
    if v.At("id").Str? && f.At("name").Str? && kind.Some? && arguments.Some?
    then Some(TypedCall(kind.value, ToolCall(v.At("id").s, f.At("name").s, arguments.value)))
    else None
  }

  /** All of them or, if one does not decode, none. */
  function DecodeCalls(items: seq<Value>): Option<seq<TypedCall>> {
    if items == [] then Some([])
    else
      var first, rest := DecodeCall(items[0]), DecodeCalls(items[1..]);
      if first.Some? && rest.Some? then Some([first.value] + rest.value) else None
  }

  /** What the blocking call makes of a response body. */
  function DecodeReply(v: Value): Completion {
    var message := v.At("choices").Nth(0).At("message");
    Completion(message.At("content").StrOr(""),
               match DecodeCalls(message.At("tool_calls").Elements()) case Some(calls) => calls case None => [],
               Usage(v.At("usage").At("prompt_tokens").AsU64(), v.At("usage").At("completion_tokens").AsU64()))
  }

  // ---- one completion, sent either way -------------------------------------------------

  function SlotOf(c: TypedCall): Slot {
    Slot(c.call.id, c.call.name, c.call.arguments)
  }

  function LineUsage(codec: Codec, line: string, otherwise: Usage): Usage {
    match ValueOf(codec, line) case None => otherwise case Some(v) => ReportedUsage(v, otherwise)
  }

  /** The counts of the last line that reports any. */
  function UsageIn(codec: Codec, lines: seq<string>): Usage {
    if lines == [] then NO_USAGE
    else LineUsage(codec, TrimEnd(lines[|lines| - 1]), UsageIn(codec, lines[..|lines| - 1]))
  }

  /** The fragments sent to index `i` make up call number `i`, and no other index is used. */
  predicate PiecesOf(fs: seq<Fragment>, calls: seq<TypedCall>) {
    && (forall i | 0 <= i < |calls| :: SlotFor(fs, i) == SlotOf(calls[i]))
    && (forall k | 0 <= k < |fs| :: fs[k].index < |calls|)
  }

  /** The lines carry a completion in pieces, cut and interleaved in any way: the content fragments
      concatenate to its content, the call fragments make up its calls, and the last counts reported
      are its counts. */
  predicate Carries(codec: Codec, lines: seq<string>, m: Completion) {
    && Concat(TextsOf(codec, lines)) == m.content
    && PiecesOf(AllFragments(codec, lines), m.calls)
    && UsageIn(codec, lines) == m.usage
  }

  /** A streamed response: its calls are all functions. */
  function Typed(r: ChatResponse): Completion {
    Completion(r.content, if r.toolCalls.Some? then Functions(r.toolCalls.value) else [], r.usage)
  }

  function Functions(calls: seq<ToolCall>): (r: seq<TypedCall>)
    ensures |r| == |calls| && forall i | 0 <= i < |calls| :: r[i] == TypedCall(FUNCTION, calls[i])
  {
    seq(|calls|, i requires 0 <= i < |calls| => TypedCall(FUNCTION, calls[i]))
  }

  // ---- usage ---------------------------------------------------------------------------

  lemma UsageStep(codec: Codec, a: Assembly, line: string)
    ensures Feed(codec, a, line).usage == LineUsage(codec, line, a.usage)
  {
  }

  lemma UsageSnoc(codec: Codec, a: Assembly, lines: seq<string>, line: string)
    ensures FeedAll(codec, a, lines + [line]).usage == LineUsage(codec, TrimEnd(line), FeedAll(codec, a, lines).usage)
  {
    FeedLinesSnoc(Feeder(codec), a, lines, line);
    UsageStep(codec, FeedAll(codec, a, lines), TrimEnd(line));
  }

  lemma {:induction false} UsageOfStream(codec: Codec, lines: seq<string>)
    ensures FeedAll(codec, NEW, lines).usage == UsageIn(codec, lines)
  {
    if lines != [] {
      var n := |lines| - 1;
      UsageOfStream(codec, lines[..n]);
      UsageSnoc(codec, NEW, lines[..n], lines[n]);
      assert lines[..n] + [lines[n]] == lines;
    }
  }

  // ---- calls ---------------------------------------------------------------------------

  predicate Named(c: TypedCall) {
    Filled(SlotOf(c))
  }

  function FirstFew(calls: seq<TypedCall>): seq<TypedCall> {
    if |calls| <= 64 then calls else calls[..64]
  }

  /** The calls that come through: the named ones among the first 64, as functions. */
  function Surviving(calls: seq<TypedCall>): seq<ToolCall> {
    CallsOf(Slots(FirstFew(calls)))
  }

  function Slots(calls: seq<TypedCall>): (r: seq<Slot>)
    ensures |r| == |calls| && forall i | 0 <= i < |calls| :: r[i] == SlotOf(calls[i])
  {
    seq(|calls|, i requires 0 <= i < |calls| => SlotOf(calls[i]))
  }

  lemma {:induction false} EmptySlotsAddNothing(slots: seq<Slot>)
    requires forall i | 0 <= i < |slots| :: slots[i] == EMPTY_SLOT
    ensures CallsOf(slots) == []
  {
    if slots != [] {
      EmptySlotsAddNothing(slots[1..]);
    }
  }

  /** Slots never reached hold nothing, so leaving them out changes nothing. */
  lemma CallsOfReached(have: seq<Slot>, want: seq<Slot>)
    requires |have| <= |want|
    requires forall i | 0 <= i < |want| :: want[i] == if i < |have| then have[i] else EMPTY_SLOT
    ensures CallsOf(have) == CallsOf(want)
  {
    assert want == have + want[|have|..];
    EmptySlotsAddNothing(want[|have|..]);
    CallsOfAppend(have, want[|have|..]);
  }

  lemma SlotsOfPieces(fs: seq<Fragment>, calls: seq<TypedCall>)
    requires PiecesOf(fs, calls)
    ensures CallsOf(AddFragments([], fs)) == Surviving(calls)
  {
    var have, want := AddFragments([], fs), Slots(FirstFew(calls));
    SlotCount(fs);
    SlotsHoldFragments(fs);
    if have != [] {
      var k :| 0 <= k < |fs| && fs[k].index == |have| - 1;
      assert |have| <= |want|;
    }
    forall i: nat | i < |want|
      ensures want[i] == if i < |have| then have[i] else EMPTY_SLOT
    {
      assert want[i] == SlotFor(fs, i);
    }
    CallsOfReached(have, want);
  }

  lemma {:induction false} AllFilledIff(slots: seq<Slot>)
    ensures |CallsOf(slots)| <= |slots|
    ensures |CallsOf(slots)| == |slots| <==> forall i | 0 <= i < |slots| :: Filled(slots[i])
    ensures |CallsOf(slots)| == |slots| ==> forall i | 0 <= i < |slots| :: CallsOf(slots)[i] == CallAt(slots[i])
  {
    if slots != [] {
      AllFilledIff(slots[1..]);
      assert forall i | 0 < i < |slots| :: slots[i] == slots[1..][i - 1];
    }
  }

  /** Every call comes through as it was, exactly when there are at most 64, each has an id or a name,
      and each is of type "function". */
  predicate AllSurvive(calls: seq<TypedCall>) {
    |calls| <= 64 && forall i | 0 <= i < |calls| ::
      (calls[i].call.id != "" || calls[i].call.name != "") && calls[i].kind == "function"
  }

  lemma SurvivingIff(calls: seq<TypedCall>)
    ensures Functions(Surviving(calls)) == calls <==> AllSurvive(calls)
  {
    var kept := FirstFew(calls);
    AllFilledIff(Slots(kept));
    if Functions(Surviving(calls)) == calls {
      assert |Surviving(calls)| == |calls| && kept == calls;
      forall i | 0 <= i < |calls|
        ensures Named(calls[i]) && calls[i].kind == FUNCTION
      {
        assert Filled(Slots(kept)[i]) && calls[i] == Functions(Surviving(calls))[i];
      }
    }
    if AllSurvive(calls) {
      assert forall i | 0 <= i < |calls| :: Filled(Slots(kept)[i]);
      assert forall i | 0 <= i < |calls| :: CallsOf(Slots(kept))[i] == calls[i].call;
    }
  }

  // ---- the response --------------------------------------------------------------------

  /** However a completion is cut into pieces: the stream fails exactly when its content passes the
      content cap; otherwise it ends with the completion's content and counts and with the calls
      that survive, so with the whole completion exactly when all of them do. */
  lemma StreamedCompletion(codec: Codec, lines: seq<string>, m: Completion)
    requires Carries(codec, lines, m)
    ensures var a := FeedAll(codec, NEW, lines);
      && (a.overflowed <==> ByteLen(m.content) > 33_554_432)
      && (!a.overflowed ==>
            && Typed(FinishOf(a)) == m.(calls := Functions(Surviving(m.calls)))
            && (Typed(FinishOf(a)) == m <==> AllSurvive(m.calls)))
  {
    ContentIsDeltas(codec, lines);
    UsageOfStream(codec, lines);
    CallsOfStream(codec, NEW, lines);
    SlotsOfPieces(AllFragments(codec, lines), m.calls);
    SurvivingIff(m.calls);
    var a := FeedAll(codec, NEW, lines);
    assert Typed(FinishOf(a)).calls == Functions(CallsOf(a.calls));
  }

  /** The streaming call against the blocking call on one completion: it returns the response the
      blocking call returns exactly when no chunk is refused, the content is within its cap, and
      every call is a named function among the first 64. */
  lemma StreamingEqualsBlockingIff(codec: Codec, chunks: seq<string>, body: Value)
    requires Carries(codec, LinesOf(Concat(chunks)), DecodeReply(body))
    ensures var r, m := OutcomeOf(codec, chunks).0, DecodeReply(body);
      && (r == LineTooLong <==> !CheckNeverFires(chunks))
      && (r == TooMuchContent <==> CheckNeverFires(chunks) && ByteLen(m.content) > 33_554_432)
      && (r.Done? && Typed(r.response) == m <==>
            && CheckNeverFires(chunks) && ByteLen(m.content) <= 33_554_432 && AllSurvive(m.calls))
  {
    ChunkLimit.PassedOutcome(codec, chunks);
    StreamedCompletion(codec, LinesOf(Concat(chunks)), DecodeReply(body));
  }
}
