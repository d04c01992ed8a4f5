/** Ollama replies as they are printed, whole or as one object a line, which both decoders of
    adapters/ollama.rs read back. */
module OllamaWire {
  import opened Text
  import opened Json
  import opened LineFraming
  import opened WireLines
  import opened OllamaStream
  import opened OllamaEquivalence

  /** An entry of a tool-call array: a function with its arguments, or one without a name. */
  datatype Entry = Function(name: string, arguments: Value) | Nameless

  /** A reply, or one object of a streamed one. */
  datatype Part = Part(text: Option<string>, entries: seq<Entry>, done: bool, counts: Usage)

  function WireEntry(e: Entry): Value {
    match e
    case Function(name, arguments) => Obj(map["function" := Obj(map["name" := Str(name), "arguments" := arguments])])
    case Nameless => Obj(map[])
  }

  function WireMessage(p: Part): Value {
    Obj(map["tool_calls" := Arr(Each(WireEntry, p.entries))]
        + match p.text case Some(text) => map["content" := Str(text)] case None => map[])
  }

  function Counts(u: Usage): map<string, Value> {
    (match u.inputTokens case Some(n) => map["prompt_eval_count" := UInt(n)] case None => map[])
    + (match u.outputTokens case Some(n) => map["eval_count" := UInt(n)] case None => map[])
  }

  function Wire(p: Part): Value {
    Obj(map["message" := WireMessage(p), "done" := Bool(p.done)] + Counts(p.counts))
  }

  lemma MessageReads(p: Part)
    ensures var m := WireMessage(p);
      m.At("content").StrOr("") == (if p.text.Some? then p.text.value else "") && m.At("tool_calls").Elements() == Each(WireEntry, p.entries)
  {
  }

  lemma PartReads(p: Part)
    ensures var v := Wire(p);
      && TextIn(v) == (if p.text.Some? then p.text.value else "") && ItemsIn(v) == Each(WireEntry, p.entries)
      && (v.At("done") == Bool(true) <==> p.done) && CountsIn(v) == p.counts
  {
    var v := Wire(p);
    assert v.At("message") == WireMessage(p);
    MessageReads(p);
    assert v.At("prompt_eval_count").AsU64() == p.counts.inputTokens && v.At("eval_count").AsU64() == p.counts.outputTokens;
  }

  // ---- calls ---------------------------------------------------------------------------

  /** The positions of the functions, in order. */
  function Positions(entries: seq<Entry>): (ns: seq<nat>)
    ensures forall n | n in ns :: n < |entries| && entries[n].Function?
  {
    if entries == [] then []
    else
      var n := |entries| - 1;
      var before := Positions(entries[..n]);
      assert forall i | 0 <= i < n :: entries[..n][i] == entries[i];
      if entries[n].Function? then before + [n] else before
  }

  lemma {:induction false} PositionsAre(entries: seq<Entry>, n: nat)
    ensures n in Positions(entries) <==> n < |entries| && entries[n].Function?
    ensures forall i, j | 0 <= i < j < |Positions(entries)| :: Positions(entries)[i] < Positions(entries)[j]
  {
    if entries != [] {
      var last := |entries| - 1;
      PositionsAre(entries[..last], n);
      var before := Positions(entries[..last]);
      assert forall i | 0 <= i < |before| :: before[i] in before;
    }
  }

  predicate CallSays(codec: Codec, call: ToolCall, entries: seq<Entry>, n: nat) {
    && n < |entries| && entries[n].Function?
    && call == ToolCall("call_" + Decimal(n), entries[n].name, codec.render(entries[n].arguments))
  }

  /** One call for each function, numbered by its position in the array, arguments printed. */
  predicate CallsSay(codec: Codec, calls: seq<ToolCall>, entries: seq<Entry>) {
    && |calls| == |Positions(entries)|
    && forall i | 0 <= i < |calls| :: CallSays(codec, calls[i], entries, Positions(entries)[i])
  }

  lemma EntryReads(e: Entry)
    ensures var f := WireEntry(e).At("function");
      && (f.At("name").Str? <==> e.Function?) && (e.Function? ==> f.At("name") == Str(e.name) && f.At("arguments") == e.arguments)
  {
  }

  lemma {:induction false} CallsRead(codec: Codec, entries: seq<Entry>)
    ensures CallsSay(codec, CallsFrom(codec, Each(WireEntry, entries)), entries)
  {
    if entries != [] {
      var n := |entries| - 1;
      EachLast(WireEntry, entries);
      CallsRead(codec, entries[..n]);
      EntryReads(entries[n]);
      OneMoreCall(codec, CallsFrom(codec, Each(WireEntry, entries[..n])), entries);
    }
  }

  lemma OneMoreCall(codec: Codec, before: seq<ToolCall>, entries: seq<Entry>)
    requires entries != [] && CallsSay(codec, before, entries[..|entries| - 1])
    ensures var n := |entries| - 1;
      CallsSay(codec, if entries[n].Function?
                      then before + [ToolCall("call_" + Decimal(n), entries[n].name, codec.render(entries[n].arguments))]
                      else before, entries)
  {
    var n := |entries| - 1;
    forall i | 0 <= i < |before|
      ensures CallSays(codec, before[i], entries, Positions(entries[..n])[i])
    {
      assert CallSays(codec, before[i], entries[..n], Positions(entries[..n])[i]);
    }
  }

  // ---- the stream ----------------------------------------------------------------------

  /** A part that says nothing. */
  const NOTHING := Part(None, [], false, NO_USAGE)

  /** A line sends a part: as an object that reads back, or, for nothing at all, as a line that is not
      JSON. */
  predicate Sends(codec: Codec, line: string, p: Part) {
    '\n' !in line
    && ((line == codec.render(Wire(p)) && Prints(codec, Wire(p))) || (p == NOTHING && codec.parse(TrimEnd(line + "\n")).None?))
  }

  predicate SendsAll(codec: Codec, lines: seq<string>, ps: seq<Part>) {
    |lines| == |ps| && forall i | 0 <= i < |ps| :: Sends(codec, lines[i], ps[i])
  }

  function Terminate(line: string): string {
    line + "\n"
  }

  function TextOfLines(lines: seq<string>): string {
    Concat(Each(Terminate, lines))
  }

  lemma {:induction false} AllTerminated(lines: seq<string>)
    requires forall l | l in lines :: '\n' !in l
    ensures forall l | l in Each(Terminate, lines) :: IsLine(l)
  {
    if lines != [] {
      AllTerminated(lines[1..]);
      assert lines[0] in lines;
      Terminated(lines[0], Terminate(lines[0]));
    }
  }

  lemma SentLines(codec: Codec, lines: seq<string>, ps: seq<Part>)
    requires SendsAll(codec, lines, ps)
    ensures FedLines(TextOfLines(lines)) == Trimmed(Each(Terminate, lines))
  {
    forall l | l in lines
      ensures '\n' !in l
    {
      var i :| 0 <= i < |lines| && lines[i] == l;
      assert Sends(codec, lines[i], ps[i]);
    }
    AllTerminated(lines);
    LinesUnique(Each(Terminate, lines), "");
    assert Concat(Each(Terminate, lines)) + "" == Concat(Each(Terminate, lines));
    assert Trim("") == "";
  }

  /** The values of the parts that were sent as objects. */
  lemma LineIsPart(codec: Codec, line: string, p: Part)
    requires Sends(codec, line, p)
    ensures codec.parse(TrimEnd(Terminate(line))) == Some(Wire(p)) || (p == NOTHING && codec.parse(TrimEnd(Terminate(line))) == None)
  {
    if line == codec.render(Wire(p)) && Prints(codec, Wire(p)) {
      TrimmedLine(line);
    }
  }

  function AllTexts(ps: seq<Part>): string {
    Concat(Each((p: Part) => if p.text.Some? then p.text.value else "", ps))
  }

  /** The entries of the last part that names a function. */
  function LastEntries(ps: seq<Part>): seq<Entry> {
    if ps == [] then []
    else if exists e | e in ps[|ps| - 1].entries :: e.Function? then ps[|ps| - 1].entries
    else LastEntries(ps[..|ps| - 1])
  }

  /** The counts of the last part that closes a reply. */
  function LastCounts(ps: seq<Part>): Usage {
    if ps == [] then NO_USAGE
    else if ps[|ps| - 1].done then ps[|ps| - 1].counts
    else LastCounts(ps[..|ps| - 1])
  }

  lemma NamesIff(codec: Codec, calls: seq<ToolCall>, entries: seq<Entry>)
    requires CallsSay(codec, calls, entries)
    ensures calls == [] <==> !exists e | e in entries :: e.Function?
  {
    if e :| e in entries && e.Function? {
      var n :| 0 <= n < |entries| && entries[n] == e;
      PositionsAre(entries, n);
    }
    if calls != [] {
      assert Positions(entries)[0] in Positions(entries);
      assert entries[Positions(entries)[0]] in entries;
    }
  }

  /** What the assembler holds after some parts. */
  predicate Holds(codec: Codec, a: Assembly, ps: seq<Part>) {
    && a.content == AllTexts(ps) && a.usage == LastCounts(ps) && a.calls != Some([])
    && CallsSay(codec, if a.calls.Some? then a.calls.value else [], LastEntries(ps))
  }

  lemma TextsLast(ps: seq<Part>)
    requires ps != []
    ensures AllTexts(ps) == AllTexts(ps[..|ps| - 1]) + if ps[|ps| - 1].text.Some? then ps[|ps| - 1].text.value else ""
  {
    var f, n := (p: Part) => if p.text.Some? then p.text.value else "", |ps| - 1;
    EachLast(f, ps);
    assert Each(f, ps) == Each(f, ps[..n]) + [f(ps[n])];
    ConcatSnoc(Each(f, ps[..n]), f(ps[n]));
  }

  lemma PartFed(codec: Codec, a: Assembly, ps: seq<Part>)
    requires ps != [] && Holds(codec, a, ps[..|ps| - 1])
    ensures Holds(codec, FeedValue(codec, a, Wire(ps[|ps| - 1])), ps)
  {
    var p := ps[|ps| - 1];
    TextsLast(ps);
    PartReads(p);
    CallsRead(codec, p.entries);
    NamesIff(codec, CallsFrom(codec, Each(WireEntry, p.entries)), p.entries);
    ValueFed(codec, a, Wire(p));
  }

  lemma ValueFed(codec: Codec, a: Assembly, v: Value)
    ensures var b, calls := FeedValue(codec, a, v), CallsFrom(codec, ItemsIn(v));
      && b.content == a.content + TextIn(v) && b.calls == (if calls == [] then a.calls else Some(calls))
      && b.usage == if v.At("done") == Bool(true) then CountsIn(v) else a.usage
  {
    assert a.content + "" == a.content;
  }

  lemma NothingFed(codec: Codec, a: Assembly, ps: seq<Part>)
    requires ps != [] && Holds(codec, a, ps[..|ps| - 1]) && ps[|ps| - 1] == NOTHING
    ensures Holds(codec, a, ps)
  {
    TextsLast(ps);
    assert a.content + "" == a.content;
  }

  lemma {:induction false} PartsFed(codec: Codec, lines: seq<string>, ps: seq<Part>)
    requires |lines| == |ps|
    requires forall i | 0 <= i < |ps| ::
               codec.parse(lines[i]) == Some(Wire(ps[i])) || (ps[i] == NOTHING && codec.parse(lines[i]) == None)
    ensures Holds(codec, Fold(Feeder(codec), NEW, lines), ps)
  {
    if ps == [] {
      assert AllTexts([]) == "";
    } else {
      var n := |ps| - 1;
      PartsFed(codec, lines[..n], ps[..n]);
      var a := Fold(Feeder(codec), NEW, lines[..n]);
      if codec.parse(lines[n]).Some? {
        PartFed(codec, a, ps);
      } else {
        NothingFed(codec, a, ps);
      }
    }
  }

  lemma {:induction false} TrimmedAt(lines: seq<string>, i: nat)
    requires i < |lines|
    ensures |Trimmed(Each(Terminate, lines))| == |lines| && Trimmed(Each(Terminate, lines))[i] == TrimEnd(Terminate(lines[i]))
  {
    TrimmedLength(lines);
    if i > 0 {
      TrimmedAt(lines[1..], i - 1);
      assert Each(Terminate, lines)[1..] == Each(Terminate, lines[1..]);
    }
  }

  lemma {:induction false} TrimmedLength(lines: seq<string>)
    ensures |Trimmed(Each(Terminate, lines))| == |lines|
  {
    if lines != [] {
      TrimmedLength(lines[1..]);
      assert Each(Terminate, lines)[1..] == Each(Terminate, lines[1..]);
    }
  }

  /** End to end: whatever objects are sent as lines, with other lines between them, and however those are
      cut into chunks, the streaming call returns their texts joined, one call for each function of the
      last object that names any, and the counts of the last that closes the reply. */
  method StreamParts(codec: Codec, chunks: seq<string>, ghost ps: seq<Part>, ghost lines: seq<string>)
    returns (r: ChatResponse, deltas: seq<Delta>)
    requires Concat(chunks) == TextOfLines(lines) && SendsAll(codec, lines, ps)
    ensures r.content == AllTexts(ps) == AnswerText(deltas) && r.usage == LastCounts(ps) && r.toolCalls != Some([])
    ensures CallsSay(codec, if r.toolCalls.Some? then r.toolCalls.value else [], LastEntries(ps))
  {
    r, deltas := RunStreaming(codec, chunks);
    ghost var fed := Trimmed(Each(Terminate, lines));
    SentLines(codec, lines, ps);
    TrimmedLength(lines);
    forall i | 0 <= i < |ps|
      ensures codec.parse(fed[i]) == Some(Wire(ps[i])) || (ps[i] == NOTHING && codec.parse(fed[i]) == None)
    {
      TrimmedAt(lines, i);
      LineIsPart(codec, lines[i], ps[i]);
    }
    PartsFed(codec, fed, ps);
    FlushIsFold(Feeder(codec), NEW, Concat(chunks));
  }

  /** The blocking call on a printed reply answers with it. */
  lemma BlockingReads(codec: Codec, p: Part)
    ensures var r := Blocking(codec, Wire(p));
      && r.content == (if p.text.Some? then p.text.value else "") && r.usage == p.counts && r.toolCalls != Some([])
      && CallsSay(codec, if r.toolCalls.Some? then r.toolCalls.value else [], p.entries)
  {
    PartReads(p);
    CallsRead(codec, p.entries);
  }
}
