/** Streamed chat completions in the OpenAI shape: `StreamAssembly` and the capped line loop of
    `oai_chat_stream` (adapters/openai_compatible.rs). */
module OpenAiStream {
  import opened Text
  import opened Json
  import opened LineFraming

  const MAX_TOOL_CALLS: nat := 64
  const MAX_SSE_LINE_BYTES: nat := 1024 * 1024
  const MAX_STREAMED_CONTENT_BYTES: nat := 32 * 1024 * 1024
  const DONE := "[DONE]"

  /** The assembler's fields, and the deltas it forwarded. */
  datatype Assembly = Assembly(content: string, overflowed: bool, calls: seq<Slot>, usage: Usage, deltas: seq<Delta>)

  const NEW := Assembly("", false, [], NO_USAGE, [])

  // ---- tool-call fragments -------------------------------------------------------------

  datatype Fragment = Fragment(index: Uint64, id: Option<string>, name: Option<string>, arguments: Option<string>)

  function FragmentOf(v: Value): Fragment {
    Fragment(match v.At("index").AsU64() case Some(i) => i case None => 0,
             v.At("id").AsStr(), v.At("function").At("name").AsStr(), v.At("function").At("arguments").AsStr())
  }

  function Fill(slot: Slot, f: Fragment): Slot {
    Slot(match f.id case Some(id) => id case None => slot.id,
         match f.name case Some(name) => name case None => slot.name,
         match f.arguments case Some(a) => slot.arguments + a case None => slot.arguments)
  }

  function AddFragment(calls: seq<Slot>, f: Fragment): seq<Slot> {
    if f.index >= MAX_TOOL_CALLS then calls
    else
      var grown := Grow(calls, f.index + 1);
      grown[f.index := Fill(grown[f.index], f)]
  }

  function AddFragments(calls: seq<Slot>, fs: seq<Fragment>): seq<Slot> {
    Fold(AddFragment, calls, fs)
  }

  function FragmentsIn(items: seq<Value>): (r: seq<Fragment>)
    ensures |r| == |items| && forall i | 0 <= i < |items| :: r[i] == FragmentOf(items[i])
  {
    seq(|items|, i requires 0 <= i < |items| => FragmentOf(items[i]))
  }

  // ---- one line ------------------------------------------------------------------------

  /** A content fragment: kept and forwarded unless it would pass the cap. */
  function AddContent(a: Assembly, text: string): Assembly {
    if text == "" then a
    else if ByteLen(a.content) + ByteLen(text) > MAX_STREAMED_CONTENT_BYTES then a.(overflowed := true)
    else a.(content := a.content + text, deltas := a.deltas + [Delta(text, false)])
  }

  /** A reasoning fragment: forwarded, never kept. */
  function AddReasoning(a: Assembly, text: Option<string>): Assembly {
    if text.Some? && text.value != "" then a.(deltas := a.deltas + [Delta(text.value, true)]) else a
  }

  function ReportedUsage(v: Value, otherwise: Usage): Usage {
    match v.Get("usage")
    case Some(u) => if u.Null? then otherwise else Usage(u.At("prompt_tokens").AsU64(), u.At("completion_tokens").AsU64())
    case None => otherwise
  }

  function DeltaOf(v: Value): Value {
    v.At("choices").Nth(0).At("delta")
  }

  function FeedValue(a: Assembly, v: Value): Assembly {
    var delta := DeltaOf(v);
    var counted := a.(usage := ReportedUsage(v, a.usage));
    var reasoned := AddReasoning(AddReasoning(counted, delta.At("reasoning_content").AsStr()), delta.At("reasoning").AsStr());
    var told := AddContent(reasoned, delta.At("content").StrOr(""));
    told.(calls := AddFragments(told.calls, FragmentsIn(delta.At("tool_calls").Elements())))
  }

  /** The value a line carries, if it is a data line that parses. */
  function ValueOf(codec: Codec, line: string): Option<Value> {
    match StripPrefix(line, DATA)
    case None => None
    case Some(data) => if data == DONE then None else codec.parse(data)
  }

  function Feed(codec: Codec, a: Assembly, line: string): Assembly {
    match ValueOf(codec, line)
    case None => a
    case Some(v) => FeedValue(a, v)
  }

  predicate Filled(s: Slot) {
    s.id != "" || s.name != ""
  }

  function CallAt(s: Slot): ToolCall {
    ToolCall(s.id, s.name, s.arguments)
  }

  /** Slots with neither id nor name are dropped. */
  function CallsOf(slots: seq<Slot>): seq<ToolCall> {
    if slots == [] then []
    else if Filled(slots[0]) then [CallAt(slots[0])] + CallsOf(slots[1..])
    else CallsOf(slots[1..])
  }

  function FinishOf(a: Assembly): ChatResponse {
    ChatResponse(a.content, NonEmpty(CallsOf(a.calls)), a.usage)
  }

  /** The assembler: its fields change in place as lines arrive. */
  class StreamAssembly {
    var content: string
    var overflowed: bool
    var calls: seq<Slot>
    var usage: Usage
    var deltas: seq<Delta>

    function State(): Assembly
      reads this
    {
      Assembly(content, overflowed, calls, usage, deltas)
    }

    constructor ()
      ensures State() == NEW
    {
      content, overflowed, calls, usage, deltas := "", false, [], NO_USAGE, [];
    }

    method Forward(text: string, reasoning: bool)
      modifies `deltas
      ensures deltas == old(deltas) + [Delta(text, reasoning)]
    {
      deltas := deltas + [Delta(text, reasoning)];
    }

    method FeedLine(codec: Codec, line: string)
      modifies this
      ensures State() == Feed(codec, old(State()), line)
    {
      var data := StripPrefix(line, DATA);
      if data.None? || data.value == DONE {
        return;
      }
      var parsed := codec.parse(data.value);
      if parsed.None? {
        return;
      }
      var value := parsed.value;
      usage := ReportedUsage(value, usage);
      var delta := DeltaOf(value);
      ForwardReasoning(delta.At("reasoning_content").AsStr());
      ForwardReasoning(delta.At("reasoning").AsStr());
      var text := delta.At("content").StrOr("");
      if text != "" {
        if ByteLen(content) + ByteLen(text) > MAX_STREAMED_CONTENT_BYTES {
          overflowed := true;
        } else {
          content := content + text;
          Forward(text, false);
        }
      }
      FeedFragments(delta.At("tool_calls").Elements());
    }

    method ForwardReasoning(text: Option<string>)
      modifies `deltas
      ensures State() == AddReasoning(old(State()), text)
    {
      if text.Some? && text.value != "" {
        Forward(text.value, true);
      }
    }

    /** The loop over one delta's tool-call fragments. */
    method FeedFragments(items: seq<Value>)
      modifies `calls
      ensures calls == AddFragments(old(calls), FragmentsIn(items))
    {
      ghost var fs := FragmentsIn(items);
      FoldNone(AddFragment, old(calls), fs);
      for k := 0 to |items|
        invariant calls == AddFragments(old(calls), fs[..k])
      {
        FoldTake(AddFragment, old(calls), fs, k);
        FeedFragment(FragmentOf(items[k]));
      }
      assert fs[..|items|] == fs;
    }

    method FeedFragment(f: Fragment)
      modifies `calls
      ensures calls == AddFragment(old(calls), f)
    {
      if f.index >= MAX_TOOL_CALLS {
        return;
      }
      calls := Grow(calls, f.index + 1);
      calls := calls[f.index := Fill(calls[f.index], f)];
    }
  }

  // ---- the stream ----------------------------------------------------------------------

  datatype StreamResult = Done(response: ChatResponse) | LineTooLong | TooMuchContent

  function Feeder(codec: Codec): (Assembly, string) -> Assembly {
    (a, line) => Feed(codec, a, line)
  }

  function FeedAll(codec: Codec, a: Assembly, lines: seq<string>): Assembly {
    FeedLines(Feeder(codec), a, lines)
  }

  /** The assembly once every complete line of a text was fed. */
  function Fed(codec: Codec, text: string): Assembly {
    FeedAll(codec, NEW, LinesOf(text))
  }

  /** A chunk that arrives after a text fails the check: what is left of the text and the chunk,
      together, are too long. */
  predicate Overfull(before: string, chunk: string) {
    ByteLen(TailOf(before) + chunk) > MAX_SSE_LINE_BYTES
  }

  /** How many leading chunks pass the check, after a text. */
  function Passing(before: string, chunks: seq<string>): (n: nat)
    ensures n <= |chunks|
    decreases |chunks|
  {
    if chunks == [] || Overfull(before, chunks[0]) then 0 else 1 + Passing(before + chunks[0], chunks[1..])
  }

  predicate CheckNeverFires(chunks: seq<string>) {
    Passing("", chunks) == |chunks|
  }

  /** The first chunk that fails the check ends the stream, with only the lines completed before it
      fed; otherwise the outcome depends on the text alone. */
  function OutcomeOf(codec: Codec, chunks: seq<string>): (StreamResult, Assembly) {
    var a := Fed(codec, Concat(chunks[..Passing("", chunks)]));
    (if !CheckNeverFires(chunks) then LineTooLong else if a.overflowed then TooMuchContent else Done(FinishOf(a)), a)
  }

  lemma FedMore(codec: Codec, before: string, chunk: string)
    ensures Fed(codec, before + chunk) == FeedAll(codec, Fed(codec, before), LinesOf(TailOf(before) + chunk))
    ensures TailOf(before + chunk) == TailOf(TailOf(before) + chunk)
  {
    LinesAppend(before, chunk);
    FeedLinesAppend(Feeder(codec), NEW, LinesOf(before), LinesOf(TailOf(before) + chunk));
  }

  method ChatStream(codec: Codec, chunks: seq<string>) returns (r: StreamResult, assembly: StreamAssembly)
    ensures fresh(assembly) && (r, assembly.State()) == OutcomeOf(codec, chunks)
  {
    assembly := new StreamAssembly();
    var n := PumpInto(codec, assembly, chunks);
    if n < |chunks| {
      r := LineTooLong;
    } else if assembly.overflowed {
      r := TooMuchContent;
    } else {
      r := Done(FinishOf(assembly.State()));
    }
  }

  /** The chunk loop, which stops on the first chunk that fails the check. */
  method PumpInto(codec: Codec, assembly: StreamAssembly, chunks: seq<string>) returns (n: nat)
    requires assembly.State() == NEW
    modifies assembly
    ensures n == Passing("", chunks) && assembly.State() == Fed(codec, Concat(chunks[..n]))
  {
    ghost var before := "";
    var buf, fired := "", false;
    n := 0;
    assert chunks[..0] == [] && chunks[0..] == chunks;
    while n < |chunks| && !fired
      invariant n <= |chunks| && before == Concat(chunks[..n]) && assembly.State() == Fed(codec, before)
      invariant Passing("", chunks) == if fired then n else n + Passing(before, chunks[n..])
      invariant !fired ==> buf == TailOf(before)
      decreases |chunks| - n, !fired
    {
      assert chunks[n..][0] == chunks[n] && chunks[n..][1..] == chunks[n + 1..];
      buf, fired := TakeChunk(codec, assembly, before, buf, chunks[n]);
      if !fired {
        OneMore(chunks, n);
        before := before + chunks[n];
        n := n + 1;
      }
    }
  }

  lemma OneMore(chunks: seq<string>, n: nat)
    requires n < |chunks|
    ensures Concat(chunks[..n + 1]) == Concat(chunks[..n]) + chunks[n]
  {
    assert chunks[..n + 1] == chunks[..n] + [chunks[n]];
    ConcatSnoc(chunks[..n], chunks[n]);
  }

  /** One chunk: appended, checked, and its lines drained and fed. */
  method TakeChunk(codec: Codec, assembly: StreamAssembly, ghost before: string, tail: string, chunk: string)
    returns (buf: string, fired: bool)
    requires assembly.State() == Fed(codec, before) && tail == TailOf(before)
    modifies assembly
    ensures fired <==> Overfull(before, chunk)
    ensures fired ==> assembly.State() == Fed(codec, before)
    ensures !fired ==> assembly.State() == Fed(codec, before + chunk) && buf == TailOf(before + chunk)
  {
    buf := tail + chunk;
    fired := ByteLen(buf) > MAX_SSE_LINE_BYTES;
    if !fired {
      FedMore(codec, before, chunk);
      buf := DrainInto(codec, assembly, buf);
    }
  }

  /** The inner loop: every complete line is drained and fed. */
  method DrainInto(codec: Codec, assembly: StreamAssembly, text: string) returns (buf: string)
    modifies assembly
    ensures assembly.State() == FeedAll(codec, old(assembly.State()), LinesOf(text)) && buf == TailOf(text)
  {
    buf := text;
    var pos := LineEnd(buf);
    while pos.Some?
      invariant pos == LineEnd(buf)
      invariant FeedAll(codec, old(assembly.State()), LinesOf(text)) == FeedAll(codec, assembly.State(), LinesOf(buf))
      invariant TailOf(text) == TailOf(buf)
      decreases |buf|
    {
      assembly.FeedLine(codec, TrimEnd(buf[..pos.value + 1]));
      buf := buf[pos.value + 1..];
      pos := LineEnd(buf);
    }
  }

  // ---- content and deltas --------------------------------------------------------------

  /** The answer forwarded is the answer kept, and it stays within the cap. */
  ghost predicate ContentOk(a: Assembly) {
    AnswerText(a.deltas) == a.content && ByteLen(a.content) <= MAX_STREAMED_CONTENT_BYTES
  }

  /** From `a` to `b` by a text: nothing of it is lost unless the cap is passed, and only then. */
  ghost predicate Grown(a: Assembly, text: string, b: Assembly) {
    && ContentOk(b) && (a.overflowed ==> b.overflowed)
    && (b.overflowed || b.content == a.content + text)
    && (!a.overflowed ==> (b.overflowed <==> ByteLen(a.content + text) > MAX_STREAMED_CONTENT_BYTES))
  }

  lemma GrownTwice(a: Assembly, s: string, b: Assembly, t: string, c: Assembly)
    requires Grown(a, s, b) && Grown(b, t, c)
    ensures Grown(a, s + t, c)
  {
    assert a.content + (s + t) == (a.content + s) + t;
    ByteLenAppend(a.content + s, t);
  }

  lemma AddReasoningOk(a: Assembly, text: Option<string>)
    requires ContentOk(a)
    ensures ContentOk(AddReasoning(a, text)) && AddReasoning(a, text).content == a.content
    ensures AddReasoning(a, text).overflowed == a.overflowed
  {
    if text.Some? {
      AnswerTextSnoc(a.deltas, Delta(text.value, true));
    }
  }

  lemma AddContentOk(a: Assembly, text: string)
    requires ContentOk(a)
    ensures Grown(a, text, AddContent(a, text))
  {
    ByteLenAppend(a.content, text);
    AnswerTextSnoc(a.deltas, Delta(text, false));
    if text == "" {
      assert a.content + text == a.content;
    }
  }

  /** The content fragment of a line. */
  function TextOf(codec: Codec, line: string): string {
    match ValueOf(codec, line)
    case None => ""
    case Some(v) => DeltaOf(v).At("content").StrOr("")
  }

  function TextsOf(codec: Codec, lines: seq<string>): seq<string> {
    if lines == [] then [] else [TextOf(codec, TrimEnd(lines[0]))] + TextsOf(codec, lines[1..])
  }

  lemma FeedOk(codec: Codec, a: Assembly, line: string)
    requires ContentOk(a)
    ensures Grown(a, TextOf(codec, line), Feed(codec, a, line))
  {
    match ValueOf(codec, line)
    case None =>
      assert a.content + "" == a.content;
    case Some(v) =>
      var delta := DeltaOf(v);
      var counted := a.(usage := ReportedUsage(v, a.usage));
      AddReasoningOk(counted, delta.At("reasoning_content").AsStr());
      var once := AddReasoning(counted, delta.At("reasoning_content").AsStr());
      AddReasoningOk(once, delta.At("reasoning").AsStr());
      AddContentOk(AddReasoning(once, delta.At("reasoning").AsStr()), TextOf(codec, line));
  }

  lemma {:induction false} ContentFrom(codec: Codec, a: Assembly, lines: seq<string>)
    requires ContentOk(a)
    ensures Grown(a, Concat(TextsOf(codec, lines)), FeedAll(codec, a, lines))
    decreases |lines|
  {
    if lines == [] {
      assert a.content + Concat([]) == a.content;
    } else {
      var line, b := TrimEnd(lines[0]), Feed(codec, a, TrimEnd(lines[0]));
      FeedOk(codec, a, line);
      ContentFrom(codec, b, lines[1..]);
      GrownTwice(a, TextOf(codec, line), b, Concat(TextsOf(codec, lines[1..])), FeedAll(codec, a, lines));
    }
  }

  /** For every stream: the answer deltas concatenate to the content, which never passes the cap;
      the stream overflows exactly when its whole content would pass it; and when it does not, no
      content fragment was lost. */
  lemma ContentIsDeltas(codec: Codec, lines: seq<string>)
    ensures var a, all := FeedAll(codec, NEW, lines), Concat(TextsOf(codec, lines));
      && AnswerText(a.deltas) == a.content && ByteLen(a.content) <= 33_554_432
      && (a.overflowed <==> ByteLen(all) > 33_554_432)
      && (!a.overflowed ==> a.content == all)
  {
    ContentFrom(codec, NEW, lines);
    assert "" + Concat(TextsOf(codec, lines)) == Concat(TextsOf(codec, lines));
  }

  // ---- tool calls ----------------------------------------------------------------------

  function LineFragments(codec: Codec, line: string): seq<Fragment> {
    match ValueOf(codec, line)
    case None => []
    case Some(v) => FragmentsIn(DeltaOf(v).At("tool_calls").Elements())
  }

  /** All tool-call fragments of a stream, in order. */
  function AllFragments(codec: Codec, lines: seq<string>): seq<Fragment> {
    if lines == [] then [] else LineFragments(codec, TrimEnd(lines[0])) + AllFragments(codec, lines[1..])
  }

  lemma TellingKeepsCalls(a: Assembly, text: string, reasoning: Option<string>)
    ensures AddContent(a, text).calls == a.calls && AddReasoning(a, reasoning).calls == a.calls
  {
  }

  lemma FeedValueCalls(a: Assembly, v: Value)
    ensures FeedValue(a, v).calls == AddFragments(a.calls, FragmentsIn(DeltaOf(v).At("tool_calls").Elements()))
  {
    var delta := DeltaOf(v);
    var counted := a.(usage := ReportedUsage(v, a.usage));
    var once := AddReasoning(counted, delta.At("reasoning_content").AsStr());
    var twice := AddReasoning(once, delta.At("reasoning").AsStr());
    TellingKeepsCalls(counted, "", delta.At("reasoning_content").AsStr());
    TellingKeepsCalls(once, "", delta.At("reasoning").AsStr());
    TellingKeepsCalls(twice, delta.At("content").StrOr(""), None);
  }

  lemma FeedCalls(codec: Codec, a: Assembly, line: string)
    ensures Feed(codec, a, line).calls == AddFragments(a.calls, LineFragments(codec, line))
  {
    if ValueOf(codec, line).Some? {
      FeedValueCalls(a, ValueOf(codec, line).value);
    }
  }

  /** The slots of a stream are those of its fragments. */
  lemma {:induction false} CallsOfStream(codec: Codec, a: Assembly, lines: seq<string>)
    ensures FeedAll(codec, a, lines).calls == AddFragments(a.calls, AllFragments(codec, lines))
    decreases |lines|
  {
    if lines != [] {
      var line := TrimEnd(lines[0]);
      FeedCalls(codec, a, line);
      CallsOfStream(codec, Feed(codec, a, line), lines[1..]);
      FoldAppend(AddFragment, a.calls, LineFragments(codec, line), AllFragments(codec, lines[1..]));
    }
  }

  /** The argument fragments addressed to slot `i`, and the last id and name sent to it. */
  function ArgumentsFor(fs: seq<Fragment>, i: nat): string {
    if fs == [] then ""
    else
      var f := fs[|fs| - 1];
      var before := ArgumentsFor(fs[..|fs| - 1], i);
      if f.index == i && f.arguments.Some? then before + f.arguments.value else before
  }

  function LastId(fs: seq<Fragment>, i: nat): string {
    if fs == [] then ""
    else
      var f := fs[|fs| - 1];
      if f.index == i && f.id.Some? then f.id.value else LastId(fs[..|fs| - 1], i)
  }

  function LastName(fs: seq<Fragment>, i: nat): string {
    if fs == [] then ""
    else
      var f := fs[|fs| - 1];
      if f.index == i && f.name.Some? then f.name.value else LastName(fs[..|fs| - 1], i)
  }

  predicate Addressed(fs: seq<Fragment>, i: nat) {
    exists k | 0 <= k < |fs| :: fs[k].index == i
  }

  /** There are never more than 64 slots, and just enough for the largest accepted index. */
  lemma {:induction false} SlotCount(fs: seq<Fragment>)
    ensures var calls := AddFragments([], fs);
      && |calls| <= 64
      && (forall k | 0 <= k < |fs| && fs[k].index < 64 :: fs[k].index < |calls|)
      && (calls != [] ==> Addressed(fs, |calls| - 1))
  {
    if fs != [] {
      var n := |fs| - 1;
      SlotCount(fs[..n]);
      var before, calls := AddFragments([], fs[..n]), AddFragments([], fs);
      assert |calls| == |before| || fs[n].index == |calls| - 1;
      if before != [] && |calls| == |before| {
        var k :| 0 <= k < n && fs[..n][k].index == |calls| - 1;
        assert fs[k].index == |calls| - 1;
      }
      forall k | 0 <= k < |fs| && fs[k].index < 64
        ensures fs[k].index < |calls|
      {
        assert k == n || fs[..n][k] == fs[k];
      }
    }
  }

  /** The last id and name sent to slot `i`, and its argument fragments in order. */
  function SlotFor(fs: seq<Fragment>, i: nat): Slot {
    Slot(LastId(fs, i), LastName(fs, i), ArgumentsFor(fs, i))
  }

  /** Slot `i` is as `want` says: there, or not there yet and empty. */
  predicate Holds(calls: seq<Slot>, i: nat, want: Slot) {
    if i < |calls| then calls[i] == want else want == EMPTY_SLOT
  }

  lemma SlotStep(calls: seq<Slot>, i: nat, want: Slot, f: Fragment)
    requires i < MAX_TOOL_CALLS && Holds(calls, i, want)
    ensures Holds(AddFragment(calls, f), i, if f.index == i then Fill(want, f) else want)
  {
  }

  lemma SlotForLast(fs: seq<Fragment>, i: nat)
    requires fs != []
    ensures var before, f := SlotFor(fs[..|fs| - 1], i), fs[|fs| - 1];
      SlotFor(fs, i) == if f.index == i then Fill(before, f) else before
  {
  }

  /** Slot `i` holds exactly the fragments addressed to it, in order. */
  lemma {:induction false} SlotHolds(fs: seq<Fragment>, i: nat)
    requires i < MAX_TOOL_CALLS
    ensures Holds(AddFragments([], fs), i, SlotFor(fs, i))
  {
    if fs != [] {
      var n := |fs| - 1;
      SlotHolds(fs[..n], i);
      SlotStep(AddFragments([], fs[..n]), i, SlotFor(fs[..n], i), fs[n]);
      SlotForLast(fs, i);
    }
  }

  lemma SlotsHoldFragments(fs: seq<Fragment>)
    ensures var calls := AddFragments([], fs);
      && (forall i | 0 <= i < |calls| :: calls[i] == SlotFor(fs, i))
      && (forall i | |calls| <= i < 64 :: SlotFor(fs, i) == EMPTY_SLOT)
  {
    SlotCount(fs);
    forall i: nat | i < MAX_TOOL_CALLS
      ensures Holds(AddFragments([], fs), i, SlotFor(fs, i))
    {
      SlotHolds(fs, i);
    }
  }

  /** Fragments for different indices commute. */
  lemma FragmentsCommute(calls: seq<Slot>, f: Fragment, g: Fragment)
    requires f.index != g.index
    ensures AddFragment(AddFragment(calls, f), g) == AddFragment(AddFragment(calls, g), f)
  {
  }

  /** A fragment at index 64 or above changes nothing. */
  lemma FarFragmentsIgnored(calls: seq<Slot>, a: seq<Fragment>, f: Fragment, b: seq<Fragment>)
    requires f.index >= 64
    ensures AddFragments(calls, a + [f] + b) == AddFragments(calls, a + b)
  {
    FoldAppend(AddFragment, calls, a + [f], b);
    FoldAppend(AddFragment, calls, a, b);
    assert (a + [f])[..|a|] == a;
  }

  /** The positions of the slots that become calls, in order. */
  function Kept(slots: seq<Slot>): seq<nat> {
    if slots == [] then []
    else
      var n := |slots| - 1;
      if Filled(slots[n]) then Kept(slots[..n]) + [n] else Kept(slots[..n])
  }

  lemma {:induction false} KeptIff(slots: seq<Slot>, k: nat)
    ensures k in Kept(slots) <==> k < |slots| && Filled(slots[k])
  {
    if slots != [] {
      KeptIff(slots[..|slots| - 1], k);
    }
  }

  lemma {:induction false} KeptAscends(slots: seq<Slot>, i: nat, j: nat)
    requires i < j < |Kept(slots)|
    ensures Kept(slots)[i] < Kept(slots)[j]
  {
    var n := |slots| - 1;
    var before := Kept(slots[..n]);
    if j < |before| {
      KeptAscends(slots[..n], i, j);
    } else {
      KeptIff(slots[..n], before[i]);
      assert before[i] in before;
    }
  }

  lemma {:induction false} CallsAreKept(slots: seq<Slot>, i: nat)
    requires i < |Kept(slots)|
    ensures |CallsOf(slots)| == |Kept(slots)| && Kept(slots)[i] < |slots|
    ensures CallsOf(slots)[i] == CallAt(slots[Kept(slots)[i]])
  {
    var n := |slots| - 1;
    CallsOfSnoc(slots);
    KeptCount(slots[..n]);
    if i < |Kept(slots[..n])| {
      CallsAreKept(slots[..n], i);
    }
  }

  lemma {:induction false} KeptCount(slots: seq<Slot>)
    ensures |CallsOf(slots)| == |Kept(slots)|
  {
    if slots != [] {
      KeptCount(slots[..|slots| - 1]);
      CallsOfSnoc(slots);
    }
  }

  /** `finish` keeps exactly the slots with an id or a name, in index order. */
  lemma FinishKeeps(slots: seq<Slot>)
    ensures var ks, calls := Kept(slots), CallsOf(slots);
      && |calls| == |ks| && (forall i, j | 0 <= i < j < |ks| :: ks[i] < ks[j])
      && (forall i | 0 <= i < |ks| :: ks[i] < |slots| && calls[i] == CallAt(slots[ks[i]]))
      && (forall n | 0 <= n < |slots| :: n in ks <==> Filled(slots[n]))
  {
    KeptCount(slots);
    forall n: nat | n < |slots|
      ensures n in Kept(slots) <==> Filled(slots[n])
    {
      KeptIff(slots, n);
    }
    forall i: nat, j: nat | i < j < |Kept(slots)|
      ensures Kept(slots)[i] < Kept(slots)[j]
    {
      KeptAscends(slots, i, j);
    }
    forall i | 0 <= i < |Kept(slots)|
      ensures Kept(slots)[i] < |slots| && CallsOf(slots)[i] == CallAt(slots[Kept(slots)[i]])
    {
      CallsAreKept(slots, i);
    }
  }

  lemma CallsOfOne(one: seq<Slot>)
    requires |one| == 1
    ensures CallsOf(one) == if Filled(one[0]) then [CallAt(one[0])] else []
  {
    assert one[1..] == [] && CallsOf(one[1..]) == [];
  }

  lemma CallsOfSnoc(slots: seq<Slot>)
    requires slots != []
    ensures var n := |slots| - 1;
      CallsOf(slots) == if Filled(slots[n]) then CallsOf(slots[..n]) + [CallAt(slots[n])] else CallsOf(slots[..n])
  {
    var before, last := slots[..|slots| - 1], slots[|slots| - 1..];
    assert before + last == slots;
    CallsOfAppend(before, last);
    CallsOfOne(last);
  }

  lemma {:induction false} CallsOfAppend(a: seq<Slot>, b: seq<Slot>)
    ensures CallsOf(a + b) == CallsOf(a) + CallsOf(b)
  {
    if a == [] {
      assert a + b == b;
    } else {
      assert (a + b)[1..] == a[1..] + b;
      CallsOfAppend(a[1..], b);
    }
  }
}
