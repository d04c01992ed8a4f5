/** Parsed JSON, with the accessors of `serde_json::Value`. Text parsing and printing stay
    abstract: they are a `Codec` handed to whoever needs them. */
module Json {
  import opened Text

  type Uint64 = n: nat | n < 0x1_0000_0000_0000_0000

  /** `UInt` is a number `as_u64` accepts; `Number` is the text of any other. */
  datatype Value =
    | Null
    | Bool(b: bool)
    | UInt(n: Uint64)
    | Number(text: string)
    | Str(s: string)
    | Arr(items: seq<Value>)
    | Obj(fields: map<string, Value>)
  {
    function Get(key: string): Option<Value> {
      if Obj? && key in fields then Some(fields[key]) else None
    }

    /** `value[key]`: a missing member reads as null. */
    function At(key: string): Value {
      if Obj? && key in fields then fields[key] else Null
    }

    /** `value[i]`: a missing element reads as null. */
    function Nth(i: nat): Value {
      if Arr? && i < |items| then items[i] else Null
    }

    function AsStr(): Option<string> {
      if Str? then Some(s) else None
    }

    function StrOr(default: string): string {
      if Str? then s else default
    }

    function AsU64(): Option<Uint64> {
      if UInt? then Some(n) else None
    }

    /** `as_array().map(Vec::as_slice).unwrap_or_default()` */
    function Elements(): seq<Value> {
      if Arr? then items else []
    }
  }

  /** `serde_json::from_str` and `to_string`. */
  datatype Codec = Codec(parse: string -> Option<Value>, render: Value -> string)

  /** This value, printed, reads back as itself. Not every value does: printed numbers are read by
      their shape, and reading stops at a depth. */
  predicate ReadsBack(codec: Codec, v: Value) {
    codec.parse(codec.render(v)) == Some(v)
  }

  /** One tool invocation in the OpenAI shape. The `type` member is always "function". */
  datatype ToolCall = ToolCall(id: string, name: string, arguments: string)

  /** Id, name and arguments of one streamed tool call, as far as they have arrived. */
  datatype Slot = Slot(id: string, name: string, arguments: string)

  const EMPTY_SLOT := Slot("", "", "")

  /** `resize(n, default)` when the vector is shorter than `n`. */
  function Grow(slots: seq<Slot>, n: nat): (r: seq<Slot>)
    ensures |r| == if |slots| >= n then |slots| else n
    ensures forall i | 0 <= i < |r| :: r[i] == if i < |slots| then slots[i] else EMPTY_SLOT
  {
    if |slots| >= n then slots else slots + seq(n - |slots|, _ => EMPTY_SLOT)
  }

  datatype Usage = Usage(inputTokens: Option<Uint64>, outputTokens: Option<Uint64>)

  const NO_USAGE := Usage(None, None)

  datatype ChatResponse = ChatResponse(content: string, toolCalls: Option<seq<ToolCall>>, usage: Usage)

  /** `(!calls.is_empty()).then_some(calls)` */
  function NonEmpty(calls: seq<ToolCall>): Option<seq<ToolCall>> {
    if calls == [] then None else Some(calls)
  }

  /** `format!("call_{n}")` */
  function SynthesizedId(n: nat): string {
    "call_" + Decimal(n)
  }

  /** What a delta sink receives: the fragment and whether it is reasoning. */
  datatype Delta = Delta(text: string, reasoning: bool)

  /** The answer text among the deltas. */
  function AnswerText(deltas: seq<Delta>): string {
    if deltas == [] then "" else (if deltas[0].reasoning then "" else deltas[0].text) + AnswerText(deltas[1..])
  }

  lemma {:induction false} AnswerTextAppend(a: seq<Delta>, b: seq<Delta>)
    ensures AnswerText(a + b) == AnswerText(a) + AnswerText(b)
  {
    if a == [] {
      assert a + b == b;
    } else {
      assert (a + b)[1..] == a[1..] + b;
      AnswerTextAppend(a[1..], b);
    }
  }

  lemma AnswerTextSnoc(deltas: seq<Delta>, d: Delta)
    ensures AnswerText(deltas + [d]) == if d.reasoning then AnswerText(deltas) else AnswerText(deltas) + d.text
  {
    AnswerTextAppend(deltas, [d]);
    assert AnswerText([d]) == (if d.reasoning then "" else d.text) + AnswerText([]);
  }
}
