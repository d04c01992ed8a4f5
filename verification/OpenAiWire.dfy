/** The OpenAI protocol as it is printed: bodies and stream chunks in their own field names, which both
    decoders of adapters/openai_compatible.rs read back. */
module OpenAiWire {
  import opened Text
  import opened Json
  import opened LineFraming
  import opened WireLines
  import opened OpenAiStream
  import opened OpenAiEquivalence

  function Member(key: string, s: Option<string>): map<string, Value> {
    match s case Some(text) => map[key := Str(text)] case None => map[]
  }

  function Counts(u: Usage): Value {
    Obj((match u.inputTokens case Some(n) => map["prompt_tokens" := UInt(n)] case None => map[])
        + (match u.outputTokens case Some(n) => map["completion_tokens" := UInt(n)] case None => map[]))
  }

  lemma CountsRead(u: Usage)
    ensures Usage(Counts(u).At("prompt_tokens").AsU64(), Counts(u).At("completion_tokens").AsU64()) == u
  {
  }

  // ---- a whole body --------------------------------------------------------------------

  function WireCall(c: TypedCall): Value {
    Obj(map["id" := Str(c.call.id), "type" := Str(c.kind),
            "function" := Obj(map["name" := Str(c.call.name), "arguments" := Str(c.call.arguments)])])
  }

  function WireBody(m: Completion): Value {
    Obj(map["choices" := Arr([Obj(map["message" := Obj(map["content" := Str(m.content),
                                                            "tool_calls" := Arr(Each(WireCall, m.calls))])])]),
            "usage" := Counts(m.usage)])
  }

  lemma CallReads(c: TypedCall)
    ensures DecodeCall(WireCall(c)) == Some(c)
  {
    var f := WireCall(c).At("function");
    assert f == Obj(map["name" := Str(c.call.name), "arguments" := Str(c.call.arguments)]);
    assert WireCall(c).Get("type") == Some(Str(c.kind)) && f.Get("arguments") == Some(Str(c.call.arguments));
  }

  lemma {:induction false} CallsRead(calls: seq<TypedCall>)
    ensures DecodeCalls(Each(WireCall, calls)) == Some(calls)
  {
    if calls != [] {
      CallReads(calls[0]);
      CallsRead(calls[1..]);
      assert Each(WireCall, calls)[1..] == Each(WireCall, calls[1..]);
      assert [calls[0]] + calls[1..] == calls;
    }
  }

  /** The blocking decoder reads a printed completion as it is. */
  lemma BodyReads(m: Completion)
    ensures DecodeReply(WireBody(m)) == m
  {
    var message := Obj(map["content" := Str(m.content), "tool_calls" := Arr(Each(WireCall, m.calls))]);
    assert WireBody(m).At("choices").Nth(0).At("message") == message;
    assert WireBody(m).At("usage") == Counts(m.usage);
    CallsRead(m.calls);
    CountsRead(m.usage);
  }

  // ---- one chunk -----------------------------------------------------------------------

  /** What a stream chunk says; anything may be missing. */
  datatype Piece = Piece(content: Option<string>, reasoningContent: Option<string>, reasoning: Option<string>,
                         fragments: seq<Fragment>, usage: Option<Usage>)

  function WireFragment(f: Fragment): Value {
    Obj(map["index" := UInt(f.index), "function" := Obj(Member("name", f.name) + Member("arguments", f.arguments))]
        + Member("id", f.id))
  }

  function WireDelta(p: Piece): Value {
    Obj(map["tool_calls" := Arr(Each(WireFragment, p.fragments))] + Member("content", p.content)
        + Member("reasoning_content", p.reasoningContent) + Member("reasoning", p.reasoning))
  }

  function WirePiece(p: Piece): Value {
    Obj(map["choices" := Arr([Obj(map["delta" := WireDelta(p)])])]
        + match p.usage case Some(u) => map["usage" := Counts(u)] case None => map[])
  }

  lemma FragmentReads(f: Fragment)
    ensures FragmentOf(WireFragment(f)) == f
  {
    var v := WireFragment(f);
    assert v.At("index") == UInt(f.index);
    assert v.At("id").AsStr() == f.id;
    assert v.At("function") == Obj(Member("name", f.name) + Member("arguments", f.arguments));
    assert v.At("function").At("name").AsStr() == f.name && v.At("function").At("arguments").AsStr() == f.arguments;
  }

  lemma FragmentsRead(fs: seq<Fragment>)
    ensures FragmentsIn(Each(WireFragment, fs)) == fs
  {
    EachLength(WireFragment, fs);
    forall i | 0 <= i < |fs|
      ensures FragmentsIn(Each(WireFragment, fs))[i] == fs[i]
    {
      EachAt(WireFragment, fs, i);
      FragmentReads(fs[i]);
    }
  }

  lemma DeltaReads(p: Piece)
    ensures var d := WireDelta(p);
      && d.At("content").AsStr() == p.content && d.At("reasoning_content").AsStr() == p.reasoningContent
      && d.At("reasoning").AsStr() == p.reasoning && d.At("tool_calls").Elements() == Each(WireFragment, p.fragments)
  {
  }

  lemma PieceReads(p: Piece)
    ensures DeltaOf(WirePiece(p)) == WireDelta(p)
    ensures forall otherwise :: ReportedUsage(WirePiece(p), otherwise) == if p.usage.Some? then p.usage.value else otherwise
  {
    var v := WirePiece(p);
    assert v.At("choices") == Arr([Obj(map["delta" := WireDelta(p)])]);
    if p.usage.Some? {
      assert v.Get("usage") == Some(Counts(p.usage.value));
      CountsRead(p.usage.value);
    } else {
      assert v.Get("usage") == None;
    }
  }

  /** What is read from values of any shape: a fragment without an index is for the first call, counts that
      are null are not reported, and a call list of which one entry does not decode is no calls. */
  lemma AnyFragment(v: Value)
    ensures !v.At("index").UInt? ==> FragmentOf(v).index == 0
  {
  }

  lemma AnyCounts(v: Value, otherwise: Usage)
    ensures v.At("usage").Null? ==> ReportedUsage(v, otherwise) == otherwise
    ensures !v.At("usage").Null? && !v.At("usage").Obj? ==> ReportedUsage(v, otherwise) == NO_USAGE
  {
  }

  /** A call decodes when its id and name are strings and its type and arguments are, if they are there; it is
      a function without arguments when they are not. */
  lemma AnyCallDecodes(v: Value)
    ensures var f := v.At("function");
      && (DecodeCall(v).Some? <==> && v.At("id").Str? && f.At("name").Str? && (v.Get("type").None? || v.At("type").Str?)
                                   && (f.Get("arguments").None? || f.At("arguments").Str?))
      && (DecodeCall(v).Some? ==>
            var c := DecodeCall(v).value;
            && c.kind == (if v.At("type").Str? then v.At("type").s else "function") && c.call.id == v.At("id").s
            && c.call.name == f.At("name").s && c.call.arguments == (if f.At("arguments").Str? then f.At("arguments").s else ""))
  {
  }

  lemma {:induction false} AllOrNone(items: seq<Value>)
    ensures DecodeCalls(items).Some? <==> forall v | v in items :: DecodeCall(v).Some?
  {
    if items != [] {
      AllOrNone(items[1..]);
      assert items == [items[0]] + items[1..];
    }
  }

  lemma AnyReply(v: Value)
    ensures var message := v.At("choices").Nth(0).At("message");
      && (!message.At("content").Str? ==> DecodeReply(v).content == "")
      && ((exists c | c in message.At("tool_calls").Elements() :: DecodeCall(c).None?) ==> DecodeReply(v).calls == [])
  {
    AllOrNone(v.At("choices").Nth(0).At("message").At("tool_calls").Elements());
  }

  // ---- the stream ----------------------------------------------------------------------

  function Said(s: Option<string>): string {
    if s.Some? then s.value else ""
  }

  /** A piece that says nothing. */
  const NOTHING := Piece(None, None, None, [], None)

  /** A line sends a piece: as a data line, or, for nothing at all, as any other line. */
  predicate Sends(codec: Codec, l: WireLine, p: Piece) {
    LineOk(codec, l) && (l == Data(WirePiece(p)) || (p == NOTHING && !l.Data?))
  }

  predicate SendsAll(codec: Codec, ls: seq<WireLine>, ps: seq<Piece>) {
    |ls| == |ps| && forall i | 0 <= i < |ps| :: Sends(codec, ls[i], ps[i])
  }

  function Contents(ps: seq<Piece>): string {
    if ps == [] then "" else Said(ps[0].content) + Contents(ps[1..])
  }

  function AllPieces(ps: seq<Piece>): seq<Fragment> {
    if ps == [] then [] else ps[0].fragments + AllPieces(ps[1..])
  }

  /** The counts of the last piece that has any. */
  function LastCounts(ps: seq<Piece>): Usage {
    if ps == [] then NO_USAGE
    else if ps[|ps| - 1].usage.Some? then ps[|ps| - 1].usage.value
    else LastCounts(ps[..|ps| - 1])
  }

  /** The pieces make up a completion, cut and interleaved in any way. */
  predicate MakeUp(ps: seq<Piece>, m: Completion) {
    Contents(ps) == m.content && PiecesOf(AllPieces(ps), m.calls) && LastCounts(ps) == m.usage
  }

  /** The value of a line, if it has one, is the printed piece. */
  lemma LineIsPiece(codec: Codec, l: WireLine, p: Piece)
    requires Sends(codec, l, p)
    ensures ValueOf(codec, TrimEnd(Printed(codec, l))) == if l.Data? then Some(WirePiece(p)) else None
  {
    match l
    case Data(v) => DataPayload(codec, v);
    case EndMarker => EndPayload(codec);
    case Noise(text) => NoisePayload(codec, text);
  }

  lemma LineSays(codec: Codec, l: WireLine, p: Piece)
    requires Sends(codec, l, p)
    ensures var line := TrimEnd(Printed(codec, l));
      && OpenAiStream.TextOf(codec, line) == Said(p.content) && LineFragments(codec, line) == p.fragments
      && forall otherwise :: LineUsage(codec, line, otherwise) == if p.usage.Some? then p.usage.value else otherwise
  {
    LineIsPiece(codec, l, p);
    if l.Data? {
      PieceReads(p);
      DeltaReads(p);
      FragmentsRead(p.fragments);
    }
  }

  lemma {:induction false} StreamSays(codec: Codec, ls: seq<WireLine>, ps: seq<Piece>)
    requires SendsAll(codec, ls, ps)
    ensures Concat(TextsOf(codec, PrintedAll(codec, ls))) == Contents(ps)
    ensures AllFragments(codec, PrintedAll(codec, ls)) == AllPieces(ps)
  {
    if ls != [] {
      var lines := PrintedAll(codec, ls);
      LineSays(codec, ls[0], ps[0]);
      StreamSays(codec, ls[1..], ps[1..]);
      assert lines[1..] == PrintedAll(codec, ls[1..]) && lines[0] == Printed(codec, ls[0]);
      assert TextsOf(codec, lines)[1..] == TextsOf(codec, lines[1..]);
    }
  }

  lemma {:induction false} StreamCounts(codec: Codec, ls: seq<WireLine>, ps: seq<Piece>)
    requires SendsAll(codec, ls, ps)
    ensures UsageIn(codec, PrintedAll(codec, ls)) == LastCounts(ps)
  {
    if ls != [] {
      var n := |ls| - 1;
      EachLast((l: WireLine) => Printed(codec, l), ls);
      LineSays(codec, ls[n], ps[n]);
      StreamCounts(codec, ls[..n], ps[..n]);
    }
  }

  /** Printed pieces that make up a completion carry it. */
  lemma PrintedCarries(codec: Codec, ls: seq<WireLine>, ps: seq<Piece>, m: Completion)
    requires SendsAll(codec, ls, ps) && MakeUp(ps, m)
    ensures Carries(codec, LinesOf(WireLines.TextOf(codec, ls)), m)
  {
    forall l | l in ls
      ensures LineOk(codec, l)
    {
      var i :| 0 <= i < |ls| && ls[i] == l;
      assert Sends(codec, ls[i], ps[i]);
    }
    PrintedLines(codec, ls);
    StreamSays(codec, ls, ps);
    StreamCounts(codec, ls, ps);
  }

  // ---- what is forwarded ---------------------------------------------------------------

  function Spoken(s: Option<string>, reasoning: bool): seq<Delta> {
    if s.Some? && s.value != "" then [Delta(s.value, reasoning)] else []
  }

  /** A piece is forwarded as its reasoning, under either name, and then its content. */
  function Forwarded(p: Piece): seq<Delta> {
    Spoken(p.reasoningContent, true) + Spoken(p.reasoning, true) + Spoken(p.content, false)
  }

  function ForwardedAll(ps: seq<Piece>): seq<Delta> {
    if ps == [] then [] else Forwarded(ps[0]) + ForwardedAll(ps[1..])
  }

  /** From `a` to `b` by some deltas, unless the content passed its cap. */
  predicate Spoke(a: Assembly, deltas: seq<Delta>, b: Assembly) {
    (a.overflowed ==> b.overflowed) && (!b.overflowed ==> b.deltas == a.deltas + deltas)
  }

  lemma SpokeTwice(a: Assembly, d: seq<Delta>, b: Assembly, e: seq<Delta>, c: Assembly)
    requires Spoke(a, d, b) && Spoke(b, e, c)
    ensures Spoke(a, d + e, c)
  {
    assert (a.deltas + d) + e == a.deltas + (d + e);
  }

  lemma SpokeNothing(a: Assembly, b: Assembly)
    requires b.deltas == a.deltas && b.overflowed == a.overflowed
    ensures Spoke(a, [], b)
  {
    assert a.deltas + [] == a.deltas;
  }

  lemma ReasoningSpoken(a: Assembly, s: Option<string>)
    ensures Spoke(a, Spoken(s, true), AddReasoning(a, s))
  {
    if s.None? || s.value == "" {
      SpokeNothing(a, a);
    }
  }

  lemma ContentSpoken(a: Assembly, s: Option<string>)
    ensures Spoke(a, Spoken(s, false), AddContent(a, Said(s)))
  {
    if Said(s) == "" {
      SpokeNothing(a, a);
    }
  }

  lemma PieceForwarded(a: Assembly, p: Piece)
    ensures Spoke(a, Forwarded(p), FeedValue(a, WirePiece(p)))
  {
    PieceReads(p);
    DeltaReads(p);
    var counted := a.(usage := ReportedUsage(WirePiece(p), a.usage));
    var once := AddReasoning(counted, p.reasoningContent);
    var twice := AddReasoning(once, p.reasoning);
    var told := AddContent(twice, Said(p.content));
    ReasoningSpoken(counted, p.reasoningContent);
    ReasoningSpoken(once, p.reasoning);
    ContentSpoken(twice, p.content);
    SpokeTwice(counted, Spoken(p.reasoningContent, true), once, Spoken(p.reasoning, true), twice);
    SpokeTwice(counted, Spoken(p.reasoningContent, true) + Spoken(p.reasoning, true), twice, Spoken(p.content, false), told);
    FedValueIs(a, p, told);
  }

  lemma FedValueIs(a: Assembly, p: Piece, told: Assembly)
    requires DeltaOf(WirePiece(p)) == WireDelta(p)
    requires var d := WireDelta(p);
      && d.At("content").AsStr() == p.content && d.At("reasoning_content").AsStr() == p.reasoningContent
      && d.At("reasoning").AsStr() == p.reasoning
    requires told == AddContent(AddReasoning(AddReasoning(a.(usage := ReportedUsage(WirePiece(p), a.usage)), p.reasoningContent),
                                             p.reasoning), Said(p.content))
    ensures FeedValue(a, WirePiece(p)).deltas == told.deltas && FeedValue(a, WirePiece(p)).overflowed == told.overflowed
  {
  }

  lemma LineForwarded(codec: Codec, a: Assembly, l: WireLine, p: Piece)
    requires Sends(codec, l, p)
    ensures Spoke(a, Forwarded(p), Feed(codec, a, TrimEnd(Printed(codec, l))))
  {
    LineIsPiece(codec, l, p);
    if l.Data? {
      PieceForwarded(a, p);
    } else {
      SpokeNothing(a, a);
    }
  }

  lemma {:induction false} StreamForwarded(codec: Codec, a: Assembly, ls: seq<WireLine>, ps: seq<Piece>)
    requires SendsAll(codec, ls, ps)
    ensures Spoke(a, ForwardedAll(ps), FeedAll(codec, a, PrintedAll(codec, ls)))
    decreases |ls|
  {
    if ls == [] {
      SpokeNothing(a, a);
    } else {
      var b := Feed(codec, a, TrimEnd(Printed(codec, ls[0])));
      FeedPrinted(codec, Feeder(codec), a, ls);
      LineForwarded(codec, a, ls[0], ps[0]);
      StreamForwarded(codec, b, ls[1..], ps[1..]);
      SpokeTwice(a, Forwarded(ps[0]), b, ForwardedAll(ps[1..]), FeedAll(codec, b, PrintedAll(codec, ls[1..])));
    }
  }

  // ---- end to end ----------------------------------------------------------------------

  lemma ChunksAreText(codec: Codec, chunks: seq<string>, text: string)
    requires Concat(chunks) == text && CheckNeverFires(chunks)
    ensures OutcomeOf(codec, chunks).1 == FeedAll(codec, NEW, LinesOf(text))
  {
    assert chunks[..|chunks|] == chunks;
  }

  /** End to end: however a completion is cut into pieces, the pieces are printed as lines with other
      lines between them, and the lines are cut into chunks, the streaming call fails exactly when a
      chunk is refused or the content passes its cap, and otherwise returns the completion, exactly when
      every call is a named function among the first 64. What it forwards is the reasoning and the content
      of the pieces, in order. */
  method StreamCompletion(codec: Codec, chunks: seq<string>, ghost m: Completion, ghost ps: seq<Piece>, ghost ls: seq<WireLine>)
    returns (r: StreamResult, deltas: seq<Delta>)
    requires Concat(chunks) == WireLines.TextOf(codec, ls) && SendsAll(codec, ls, ps) && MakeUp(ps, m)
    ensures r == LineTooLong <==> !CheckNeverFires(chunks)
    ensures r == TooMuchContent <==> CheckNeverFires(chunks) && ByteLen(m.content) > 33_554_432
    ensures r.Done? ==> deltas == ForwardedAll(ps) && r.response.content == m.content && r.response.usage == m.usage
    ensures r.Done? ==> (Typed(r.response) == m <==> AllSurvive(m.calls))
  {
    var assembly;
    r, assembly := ChatStream(codec, chunks);
    deltas := assembly.deltas;
    BodyReads(m);
    PrintedCarries(codec, ls, ps, m);
    StreamingEqualsBlockingIff(codec, chunks, WireBody(m));
    StreamedCompletion(codec, LinesOf(Concat(chunks)), m);
    if r.Done? {
      ghost var a := FeedAll(codec, NEW, LinesOf(Concat(chunks)));
      ChunksAreText(codec, chunks, Concat(chunks));
      LinesArePrinted(codec, ls, ps);
      StreamForwarded(codec, NEW, ls, ps);
      assert assembly.State() == a;
      assert [] + ForwardedAll(ps) == ForwardedAll(ps);
    }
  }

  lemma LinesArePrinted(codec: Codec, ls: seq<WireLine>, ps: seq<Piece>)
    requires SendsAll(codec, ls, ps)
    ensures LinesOf(WireLines.TextOf(codec, ls)) == PrintedAll(codec, ls)
  {
    forall l | l in ls
      ensures LineOk(codec, l)
    {
      var i :| 0 <= i < |ls| && ls[i] == l;
      assert Sends(codec, ls[i], ps[i]);
    }
    PrintedLines(codec, ls);
  }
}
