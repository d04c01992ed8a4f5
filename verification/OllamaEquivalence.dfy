/** Streaming against the blocking call of Ollama (adapters/ollama.rs). */
module OllamaEquivalence {
  import opened Text
  import opened Json
  import opened LineFraming
  import opened OllamaStream

  // ---- one reply, sent either way ------------------------------------------------------

  function TextIn(v: Value): string {
    v.At("message").At("content").StrOr("")
  }

  function ItemsIn(v: Value): seq<Value> {
    v.At("message").At("tool_calls").Elements()
  }

  function CountsIn(v: Value): Usage {
    Usage(v.At("prompt_eval_count").AsU64(), v.At("eval_count").AsU64())
  }

  /** What the blocking call makes of a body. */
  function Blocking(codec: Codec, v: Value): ChatResponse {
    ChatResponse(TextIn(v), ToolCallsOf(codec, v), CountsIn(v))
  }

  /** The objects of a stream; a line that does not parse is none. */
  function ObjectsIn(codec: Codec, lines: seq<string>): seq<Value> {
    if lines == [] then []
    else
      var before, last := ObjectsIn(codec, lines[..|lines| - 1]), codec.parse(lines[|lines| - 1]);
      if last.Some? then before + [last.value] else before
  }

  function AllText(vs: seq<Value>): string {
    if vs == [] then "" else AllText(vs[..|vs| - 1]) + TextIn(vs[|vs| - 1])
  }

  function AllItems(vs: seq<Value>): seq<Value> {
    if vs == [] then [] else AllItems(vs[..|vs| - 1]) + ItemsIn(vs[|vs| - 1])
  }

  function ClosingCounts(vs: seq<Value>): Usage {
    if vs == [] then NO_USAGE
    else if vs[|vs| - 1].At("done") == Bool(true) then CountsIn(vs[|vs| - 1])
    else ClosingCounts(vs[..|vs| - 1])
  }

  /** A body is what the objects of a stream add up to: their texts and tool-call arrays joined, and
      the counts of the last closing object. */
  predicate Joins(body: Value, vs: seq<Value>) {
    TextIn(body) == AllText(vs) && ItemsIn(body) == AllItems(vs) && CountsIn(body) == ClosingCounts(vs)
  }

  // ---- what the assembler makes of the objects -----------------------------------------

  function FeedObject(codec: Codec): (Assembly, Value) -> Assembly {
    (a, v) => FeedValue(codec, a, v)
  }

  lemma {:induction false} LinesAreObjects(codec: Codec, lines: seq<string>)
    ensures Fold(Feeder(codec), NEW, lines) == Fold(FeedObject(codec), NEW, ObjectsIn(codec, lines))
  {
    if lines != [] {
      var before, last := lines[..|lines| - 1], codec.parse(lines[|lines| - 1]);
      LinesAreObjects(codec, before);
      if last.Some? {
        FoldSnoc(FeedObject(codec), NEW, ObjectsIn(codec, before), last.value);
      }
    }
  }

  /** The calls of the last object that has any. */
  function LastCalls(codec: Codec, vs: seq<Value>): seq<ToolCall> {
    if vs == [] then []
    else
      var calls := CallsFrom(codec, ItemsIn(vs[|vs| - 1]));
      if calls == [] then LastCalls(codec, vs[..|vs| - 1]) else calls
  }

  lemma {:induction false} AssemblyHolds(codec: Codec, vs: seq<Value>)
    ensures var a := Fold(FeedObject(codec), NEW, vs);
      a.content == AllText(vs) && a.calls == NonEmpty(LastCalls(codec, vs)) && a.usage == ClosingCounts(vs)
  {
    if vs != [] {
      AssemblyHolds(codec, vs[..|vs| - 1]);
    }
  }

  // ---- calls on several objects --------------------------------------------------------

  /** Items handled in order, each with its position. */
  function Numbered<A, B>(f: (A, nat) -> seq<B>, items: seq<A>, from: nat): seq<B> {
    if items == [] then []
    else Numbered(f, items[..|items| - 1], from) + f(items[|items| - 1], from + |items| - 1)
  }

  lemma {:induction false} NumberedAppend<A, B>(f: (A, nat) -> seq<B>, a: seq<A>, b: seq<A>, from: nat)
    ensures Numbered(f, a + b, from) == Numbered(f, a, from) + Numbered(f, b, from + |a|)
  {
    if b == [] {
      assert a + b == a;
    } else {
      var n := |b| - 1;
      assert (a + b)[..|a| + n] == a + b[..n];
      NumberedAppend(f, a, b[..n], from);
    }
  }

  function CallFrom(codec: Codec): (Value, nat) -> seq<ToolCall> {
    (item: Value, position: nat) =>
      var name := item.At("function").At("name");
      if name.Str? then [ToolCall(SynthesizedId(position), name.s, codec.render(item.At("function").At("arguments")))] else []
  }

  /** The calls of an array whose first position counts as `from`. */
  function CallsAt(codec: Codec, items: seq<Value>, from: nat): seq<ToolCall> {
    Numbered(CallFrom(codec), items, from)
  }

  lemma {:induction false} CallsFromIsAtZero(codec: Codec, items: seq<Value>)
    ensures CallsFrom(codec, items) == CallsAt(codec, items, 0)
  {
    if items != [] {
      CallsFromIsAtZero(codec, items[..|items| - 1]);
    }
  }

  lemma CallsOfJoined(codec: Codec, a: seq<Value>, b: seq<Value>)
    ensures CallsFrom(codec, a + b) == CallsFrom(codec, a) + CallsAt(codec, b, |a|)
  {
    CallsFromIsAtZero(codec, a + b);
    CallsFromIsAtZero(codec, a);
    NumberedAppend(CallFrom(codec), a, b, 0);
  }

  /** Where an array starts counting changes the ids of its calls, and nothing else. */
  lemma {:induction false} CallsShift(codec: Codec, items: seq<Value>, from: nat)
    ensures |CallsAt(codec, items, from)| == |CallsAt(codec, items, 0)|
    ensures CallsAt(codec, items, 0) != [] ==>
              (CallsAt(codec, items, from)[0] == CallsAt(codec, items, 0)[0] <==> from == 0)
  {
    if items != [] {
      var n := |items| - 1;
      CallsShift(codec, items[..n], from);
      if from + n != n {
        IdsDiffer(from + n, n);
      }
    }
  }

  lemma IdsDiffer(m: nat, n: nat)
    requires m != n
    ensures SynthesizedId(m) != SynthesizedId(n)
  {
    if SynthesizedId(m) == SynthesizedId(n) {
      assert SynthesizedId(m)[5..] == Decimal(m) && SynthesizedId(n)[5..] == Decimal(n);
      DecimalInjective(m, n);
    }
  }

  /** Calls that follow other entries are not the calls alone. */
  lemma JoinedCallsIff(codec: Codec, a: seq<Value>, b: seq<Value>)
    requires CallsFrom(codec, b) != []
    ensures CallsFrom(codec, a + b) == CallsFrom(codec, b) <==> a == []
  {
    CallsOfJoined(codec, a, b);
    CallsShift(codec, b, |a|);
    CallsFromIsAtZero(codec, b);
    if a == [] {
      assert a + b == b;
    }
  }

  lemma JoinedNothing(codec: Codec, a: seq<Value>, b: seq<Value>)
    requires CallsFrom(codec, b) == []
    ensures CallsFrom(codec, a + b) == CallsFrom(codec, a)
  {
    CallsOfJoined(codec, a, b);
    CallsShift(codec, b, |a|);
    CallsFromIsAtZero(codec, b);
  }

  predicate Calls(codec: Codec, v: Value) {
    CallsFrom(codec, ItemsIn(v)) != []
  }

  predicate NoneBefore<T>(calls: T -> bool, quiet: T -> bool, ts: seq<T>) {
    forall j, k | 0 <= j < k < |ts| && calls(ts[k]) :: quiet(ts[j])
  }

  lemma NoneBeforeLast<T>(calls: T -> bool, quiet: T -> bool, ts: seq<T>)
    requires ts != []
    ensures var n := |ts| - 1;
      NoneBefore(calls, quiet, ts) <==>
      NoneBefore(calls, quiet, ts[..n]) && (calls(ts[n]) ==> forall j | 0 <= j < n :: quiet(ts[j]))
  {
    var n := |ts| - 1;
    assert forall j | 0 <= j < n :: ts[..n][j] == ts[j];
  }

  /** No tool-call entry is on an object before one that has calls. */
  predicate CallsTogether(codec: Codec, vs: seq<Value>) {
    NoneBefore(v => Calls(codec, v), v => ItemsIn(v) == [], vs)
  }

  lemma {:induction false} NoItemsIff(vs: seq<Value>)
    ensures AllItems(vs) == [] <==> forall j | 0 <= j < |vs| :: ItemsIn(vs[j]) == []
  {
    if vs != [] {
      var n := |vs| - 1;
      NoItemsIff(vs[..n]);
      assert forall j | 0 <= j < n :: vs[j] == vs[..n][j];
    }
  }

  lemma TogetherLast(codec: Codec, vs: seq<Value>)
    requires vs != []
    ensures var before, v := vs[..|vs| - 1], vs[|vs| - 1];
      CallsTogether(codec, vs) <==> if Calls(codec, v) then AllItems(before) == [] else CallsTogether(codec, before)
  {
    var before := vs[..|vs| - 1];
    NoneBeforeLast(u => Calls(codec, u), u => ItemsIn(u) == [], vs);
    NoItemsIff(before);
    assert forall j | 0 <= j < |before| :: before[j] == vs[j];
    if AllItems(before) == [] {
      QuietTogether(codec, before);
    }
  }

  lemma QuietTogether(codec: Codec, vs: seq<Value>)
    requires AllItems(vs) == []
    ensures CallsTogether(codec, vs)
  {
    NoItemsIff(vs);
  }

  predicate LastIsAll(codec: Codec, vs: seq<Value>) {
    LastCalls(codec, vs) == CallsFrom(codec, AllItems(vs))
  }

  lemma LastIsAllLast(codec: Codec, vs: seq<Value>)
    requires vs != []
    ensures var before, v := vs[..|vs| - 1], vs[|vs| - 1];
      LastIsAll(codec, vs) <==> if Calls(codec, v) then AllItems(before) == [] else LastIsAll(codec, before)
  {
    var before, v := vs[..|vs| - 1], vs[|vs| - 1];
    if Calls(codec, v) {
      JoinedCallsIff(codec, AllItems(before), ItemsIn(v));
    } else {
      JoinedNothing(codec, AllItems(before), ItemsIn(v));
    }
  }

  lemma {:induction false} LastIsAllIff(codec: Codec, vs: seq<Value>)
    ensures LastIsAll(codec, vs) <==> CallsTogether(codec, vs)
  {
    if vs != [] {
      LastIsAllIff(codec, vs[..|vs| - 1]);
      LastIsAllLast(codec, vs);
      TogetherLast(codec, vs);
    }
  }

  // ---- the response --------------------------------------------------------------------

  lemma NonEmptyInjective(a: seq<ToolCall>, b: seq<ToolCall>)
    ensures NonEmpty(a) == NonEmpty(b) <==> a == b
  {
  }

  /** For every text and the body its objects add up to: the content and the counts agree, and the
      calls agree exactly when no tool-call entry is on an object before one that has calls; calls
      on two objects never agree, as the later ones replace the earlier. */
  lemma StreamingEqualsBlockingIff(codec: Codec, text: string, body: Value)
    requires Joins(body, ObjectsIn(codec, FedLines(text)))
    ensures var streamed, blocking := FinishOf(FeedText(codec, text)), Blocking(codec, body);
      && streamed.content == blocking.content && streamed.usage == blocking.usage
      && (streamed == blocking <==> CallsTogether(codec, ObjectsIn(codec, FedLines(text))))
  {
    var vs := ObjectsIn(codec, FedLines(text));
    FlushIsFold(Feeder(codec), NEW, text);
    LinesAreObjects(codec, FedLines(text));
    AssemblyHolds(codec, vs);
    LastIsAllIff(codec, vs);
    NonEmptyInjective(LastCalls(codec, vs), CallsFrom(codec, AllItems(vs)));
  }

  /** End to end, over any chunking. */
  method StreamReply(codec: Codec, chunks: seq<string>, ghost body: Value) returns (r: ChatResponse, deltas: seq<Delta>)
    requires Joins(body, ObjectsIn(codec, FedLines(Concat(chunks))))
    ensures r.content == Blocking(codec, body).content == AnswerText(deltas)
    ensures r == Blocking(codec, body) <==> CallsTogether(codec, ObjectsIn(codec, FedLines(Concat(chunks))))
  {
    r, deltas := RunStreaming(codec, chunks);
    StreamingEqualsBlockingIff(codec, Concat(chunks), body);
  }
}
