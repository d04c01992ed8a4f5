/** Tool calls leaked as Qwen / llama.cpp markup in message text (adapters/tools.rs). */
module ToolMarkup {
  import opened Text
  import opened Json

  /** Every error is reported as `malformed_tool_call: <detail>`. */
  datatype MarkupError =
    | MissingToolCallClose
    | InvalidJson
    | JsonCallMissingName
    | JsonCallMissingArguments
    | InvalidEncodedArguments
    | UnterminatedFunctionTag
    | MissingFunctionClose
    | UnterminatedParameterTag
    | MissingParameterClose
    | UnsupportedMarkup
    | UnknownFunction(name: string)
    | NoCalls

  datatype Result<+T> = Ok(value: T) | Err(error: MarkupError)

  /** A bracketing tag pair. An element is written `open attr > inner close`. */
  datatype Tag = Tag(open: string, close: string, unterminated: MarkupError, unclosed: MarkupError)

  const FUNCTION := Tag("<function=", "</function>", UnterminatedFunctionTag, MissingFunctionClose)
  const PARAMETER := Tag("<parameter=", "</parameter>", UnterminatedParameterTag, MissingParameterClose)
  const OPEN := "<tool_call>"
  const CLOSE := "</tool_call>"
  const END := ">"

  lemma TagsAreTags()
    ensures IsTag(FUNCTION.open) && IsTag(FUNCTION.close)
    ensures IsTag(PARAMETER.open) && IsTag(PARAMETER.close)
    ensures IsTag(OPEN) && IsTag(CLOSE)
  {
  }

  /** What a scan for the next element of a text finds. */
  datatype Step =
    | Absent
    | Malformed(error: MarkupError)
    | Element(gap: string, attr: string, inner: string, rest: string)

  function NextTagged(tag: Tag, text: string): (r: Step)
    requires tag.open != ""
    ensures r.Element? ==> |r.rest| < |text|
  {
    match Find(text, tag.open)
    case None => Absent
    case Some(start) =>
      var after := text[start + |tag.open|..];
      match Find(after, END)
      case None => Malformed(tag.unterminated)
      case Some(attrEnd) =>
        var body := after[attrEnd + 1..];
        match Find(body, tag.close)
        case None => Malformed(tag.unclosed)
        case Some(end) => Element(text[..start], after[..attrEnd], body[..end], body[end + |tag.close|..])
  }

  function NextBlock(text: string): (r: Step)
    ensures r.Element? ==> |r.rest| < |text|
  {
    match Find(text, OPEN)
    case None => Absent
    case Some(start) =>
      var after := text[start + |OPEN|..];
      match Find(after, CLOSE)
      case None => Malformed(MissingToolCallClose)
      case Some(end) => Element(text[..start], "", after[..end], after[end + |CLOSE|..])
  }

  /** A call before it is given an id. */
  datatype RawCall = RawCall(name: string, arguments: string)

  function Cons<T>(x: T, r: Result<seq<T>>): Result<seq<T>> {
    match r
    case Ok(xs) => Ok([x] + xs)
    case Err(e) => Err(e)
  }

  function Prefix<T>(xs: seq<T>, r: Result<seq<T>>): Result<seq<T>> {
    match r
    case Ok(ys) => Ok(xs + ys)
    case Err(e) => Err(e)
  }

  lemma PrefixNone<T>(r: Result<seq<T>>)
    ensures Prefix([], r) == r
  {
    if r.Ok? {
      assert [] + r.value == r.value;
    }
  }

  lemma PrefixSnoc<T>(xs: seq<T>, x: T, r: Result<seq<T>>)
    ensures Prefix(xs, Cons(x, r)) == Prefix(xs + [x], r)
  {
    if r.Ok? {
      assert xs + ([x] + r.value) == (xs + [x]) + r.value;
    }
  }

  // ---- function_defs -------------------------------------------------------------------

  datatype FunctionDef = FunctionDef(name: string, description: Option<string>, parameters: Option<Value>)

  function FunctionDefOf(tool: Value): Option<FunctionDef> {
    match tool.Get("function")
    case None => None
    case Some(f) =>
      match f.Get("name")
      case None => None
      case Some(name) =>
        if !name.Str? then None
        else
          var description := match f.Get("description") case None => None case Some(d) => d.AsStr();
          Some(FunctionDef(name.s, description, f.Get("parameters")))
  }

  function DefsIn(tools: seq<Value>): seq<FunctionDef> {
    if tools == [] then []
    else
      var rest := DefsIn(tools[1..]);
      match FunctionDefOf(tools[0])
      case None => rest
      case Some(d) => [d] + rest
  }

  function FunctionDefs(tools: Value): seq<FunctionDef> {
    DefsIn(tools.Elements())
  }

  predicate Offered(tools: Value, name: string) {
    exists d | d in FunctionDefs(tools) :: d.name == name
  }

  /** A name is offered exactly when some entry of the `tools` array is a function entry that
      bears it as a string; every other entry is skipped. */
  lemma OfferedIff(tools: Value, name: string)
    ensures Offered(tools, name)
       <==> tools.Arr? && exists i | 0 <= i < |tools.items| :: tools.items[i].At("function").At("name") == Str(name)
  {
    OfferedInIff(tools.Elements(), name);
  }

  lemma {:induction false} OfferedInIff(tools: seq<Value>, name: string)
    ensures (exists d | d in DefsIn(tools) :: d.name == name)
       <==> exists i | 0 <= i < |tools| :: tools[i].At("function").At("name") == Str(name)
  {
    if tools != [] {
      OfferedInIff(tools[1..], name);
      assert tools == [tools[0]] + tools[1..];
      var first := FunctionDefOf(tools[0]);
      assert first.Some? && first.value.name == name <==> tools[0].At("function").At("name") == Str(name);
      if exists d | d in DefsIn(tools) :: d.name == name {
        var d :| d in DefsIn(tools) && d.name == name;
        assert first == Some(d) || d in DefsIn(tools[1..]);
      }
    }
  }

  /** The entries that name a function. */
  function Naming(tools: seq<Value>): seq<Value> {
    if tools == [] then []
    else (if tools[0].At("function").At("name").Str? then [tools[0]] else []) + Naming(tools[1..])
  }

  /** A definition says what its entry does; a description that is no string counts as none. */
  predicate Defines(tool: Value, d: FunctionDef) {
    var f := tool.At("function");
    && f.Obj? && "name" in f.fields && f.fields["name"] == Str(d.name)
    && (if "description" in f.fields && f.fields["description"].Str? then d.description == Some(f.fields["description"].s)
        else d.description == None)
    && (if "parameters" in f.fields then d.parameters == Some(f.fields["parameters"]) else d.parameters == None)
  }

  lemma {:induction false} DefsAre(tools: seq<Value>)
    ensures |DefsIn(tools)| == |Naming(tools)|
    ensures forall i | 0 <= i < |DefsIn(tools)| :: Defines(Naming(tools)[i], DefsIn(tools)[i])
  {
    if tools != [] {
      DefsAre(tools[1..]);
      var tool := tools[0];
      assert FunctionDefOf(tool).Some? <==> tool.At("function").At("name").Str?;
      assert FunctionDefOf(tool).Some? ==> Defines(tool, FunctionDefOf(tool).value);
    }
  }

  // ---- parse_tagged_calls --------------------------------------------------------------

  /** A parameter is JSON if it parses as JSON, and plain text otherwise. */
  function ParamValue(codec: Codec, raw: string): Value {
    match codec.parse(raw)
    case Some(v) => v
    case None => Str(raw)
  }

  /** The object built by inserting pairs in order: a repeated key keeps its last value. */
  function MapOf(pairs: seq<(string, Value)>): map<string, Value> {
    if pairs == [] then map[] else MapOf(pairs[..|pairs| - 1])[pairs[|pairs| - 1].0 := pairs[|pairs| - 1].1]
  }

  lemma MapOfSnoc(pairs: seq<(string, Value)>, key: string, value: Value)
    ensures MapOf(pairs + [(key, value)]) == MapOf(pairs)[key := value]
  {
    assert (pairs + [(key, value)])[..|pairs|] == pairs;
  }

  function Arguments(codec: Codec, pairs: seq<(string, Value)>): string {
    codec.render(Obj(MapOf(pairs)))
  }

  function ParsePairs(codec: Codec, params: string): Result<seq<(string, Value)>>
    decreases |params|
  {
    match NextTagged(PARAMETER, params)
    case Absent => Ok([])
    case Malformed(e) => Err(e)
    case Element(_, key, raw, rest) => Cons((Trim(key), ParamValue(codec, Trim(raw))), ParsePairs(codec, rest))
  }

  function ParseCalls(codec: Codec, body: string): Result<seq<RawCall>>
    decreases |body|
  {
    match NextTagged(FUNCTION, body)
    case Absent => Ok([])
    case Malformed(e) => Err(e)
    case Element(_, name, params, rest) =>
      match ParsePairs(codec, params)
      case Err(e) => Err(e)
      case Ok(pairs) => Cons(RawCall(Trim(name), Arguments(codec, pairs)), ParseCalls(codec, rest))
  }

  function TaggedCalls(codec: Codec, body: string): Result<seq<RawCall>> {
    match ParseCalls(codec, body)
    case Err(e) => Err(e)
    case Ok(calls) => if calls == [] then Err(UnsupportedMarkup) else Ok(calls)
  }

  method ParseTaggedCalls(codec: Codec, markup: string) returns (r: Result<seq<RawCall>>)
    ensures r == TaggedCalls(codec, markup)
  {
    var body := markup;
    var calls: seq<RawCall> := [];
    var next := NextTagged(FUNCTION, body);
    PrefixNone(ParseCalls(codec, body));
    while next.Element?
      invariant next == NextTagged(FUNCTION, body)
      invariant ParseCalls(codec, markup) == Prefix(calls, ParseCalls(codec, body))
      decreases |body|
    {
      var arguments := ParseParameters(codec, next.inner);
      if arguments.Err? {
        return Err(arguments.error);
      }
      var call := RawCall(Trim(next.attr), codec.render(Obj(arguments.value)));
      PrefixSnoc(calls, call, ParseCalls(codec, next.rest));
      calls := calls + [call];
      body := next.rest;
      next := NextTagged(FUNCTION, body);
    }
    if next.Malformed? {
      return Err(next.error);
    }
    assert calls + [] == calls;
    r := if calls == [] then Err(UnsupportedMarkup) else Ok(calls);
  }

  /** The inner loop: parameters are inserted into the argument object as they are met. */
  method ParseParameters(codec: Codec, text: string) returns (r: Result<map<string, Value>>)
    ensures match ParsePairs(codec, text)
            case Ok(pairs) => r == Ok(MapOf(pairs))
            case Err(e) => r == Err(e)
  {
    var params := text;
    var arguments: map<string, Value> := map[];
    ghost var pairs: seq<(string, Value)> := [];
    var next := NextTagged(PARAMETER, params);
    PrefixNone(ParsePairs(codec, params));
    while next.Element?
      invariant next == NextTagged(PARAMETER, params)
      invariant ParsePairs(codec, text) == Prefix(pairs, ParsePairs(codec, params))
      invariant arguments == MapOf(pairs)
      decreases |params|
    {
      var key, value := Trim(next.attr), ParamValue(codec, Trim(next.inner));
      PrefixSnoc(pairs, (key, value), ParsePairs(codec, next.rest));
      MapOfSnoc(pairs, key, value);
      arguments := arguments[key := value];
      pairs := pairs + [(key, value)];
      params := next.rest;
      next := NextTagged(PARAMETER, params);
    }
    assert pairs + [] == pairs;
    r := if next.Malformed? then Err(next.error) else Ok(arguments);
  }

  // ---- parse_tool_block ----------------------------------------------------------------

  function JsonCall(codec: Codec, value: Value): Result<RawCall> {
    match value.Get("name")
    case None => Err(JsonCallMissingName)
    case Some(name) =>
      if !name.Str? then Err(JsonCallMissingName)
      else
        match value.Get("arguments")
        case None => Err(JsonCallMissingArguments)
        case Some(arguments) =>
          if arguments.Str? then
            if codec.parse(arguments.s).None? then Err(InvalidEncodedArguments)
            else Ok(RawCall(name.s, arguments.s))
          else Ok(RawCall(name.s, codec.render(arguments)))
  }

  function JsonCalls(codec: Codec, items: seq<Value>): Result<seq<RawCall>> {
    if items == [] then Ok([])
    else
      match JsonCall(codec, items[0])
      case Err(e) => Err(e)
      case Ok(call) => Cons(call, JsonCalls(codec, items[1..]))
  }

  predicate LooksLikeJson(body: string) {
    body != "" && (body[0] == '{' || body[0] == '[')
  }

  function ToolBlock(codec: Codec, body: string): Result<seq<RawCall>> {
    if LooksLikeJson(body) then
      match codec.parse(body)
      case None => Err(InvalidJson)
      case Some(value) => JsonCalls(codec, if value.Arr? then value.items else [value])
    else TaggedCalls(codec, body)
  }

  method ParseToolBlock(codec: Codec, body: string) returns (r: Result<seq<RawCall>>)
    ensures r == ToolBlock(codec, body)
  {
    if LooksLikeJson(body) {
      var value := codec.parse(body);
      if value.None? {
        return Err(InvalidJson);
      }
      return JsonCalls(codec, if value.value.Arr? then value.value.items else [value.value]);
    }
    r := ParseTaggedCalls(codec, body);
  }

  // ---- normalize_tool_markup -----------------------------------------------------------

  /** The calls of one block, once every name is known to be offered. */
  function CheckNames(tools: Value, calls: seq<RawCall>): Result<seq<RawCall>> {
    if calls == [] then Ok([])
    else if !Offered(tools, calls[0].name) then Err(UnknownFunction(calls[0].name))
    else Cons(calls[0], CheckNames(tools, calls[1..]))
  }

  function CheckedBlock(codec: Codec, tools: Value, body: string): Result<seq<RawCall>> {
    match ToolBlock(codec, Trim(body))
    case Err(e) => Err(e)
    case Ok(calls) => CheckNames(tools, calls)
  }

  /** Plain text and calls found so far, followed by what the rest yields. */
  function Join(plain: string, calls: seq<RawCall>, r: Result<(string, seq<RawCall>)>): Result<(string, seq<RawCall>)> {
    match r
    case Ok((p, cs)) => Ok((plain + p, calls + cs))
    case Err(e) => Err(e)
  }

  /** A block's outcome, then the rest's: the first error wins. */
  function After(plain: string, block: Result<seq<RawCall>>, rest: Result<(string, seq<RawCall>)>): Result<(string, seq<RawCall>)> {
    match block
    case Ok(calls) => Join(plain, calls, rest)
    case Err(e) => Err(e)
  }

  function Scan(codec: Codec, tools: Value, rest: string): Result<(string, seq<RawCall>)>
    decreases |rest|
  {
    match NextBlock(rest)
    case Absent => Ok((rest, []))
    case Malformed(e) => Err(e)
    case Element(plain, _, body, after) => After(plain, CheckedBlock(codec, tools, body), Scan(codec, tools, after))
  }

  /** Ids count calls across all blocks. */
  function WithIds(calls: seq<RawCall>): (r: seq<ToolCall>)
    ensures |r| == |calls|
    ensures forall i | 0 <= i < |calls| :: r[i] == ToolCall(SynthesizedId(i), calls[i].name, calls[i].arguments)
  {
    seq(|calls|, i requires 0 <= i < |calls| => ToolCall(SynthesizedId(i), calls[i].name, calls[i].arguments))
  }

  function Finish(scanned: Result<(string, seq<RawCall>)>): Result<Option<(string, seq<ToolCall>)>> {
    match scanned
    case Err(e) => Err(e)
    case Ok((plain, calls)) => if calls == [] then Err(NoCalls) else Ok(Some((Trim(plain), WithIds(calls))))
  }

  function Normalize(codec: Codec, content: string, tools: Value): Result<Option<(string, seq<ToolCall>)>> {
    if Find(content, OPEN).None? then Ok(None) else Finish(Scan(codec, tools, content))
  }

  lemma JoinNone(r: Result<(string, seq<RawCall>)>)
    ensures Join("", [], r) == r
  {
    if r.Ok? {
      assert "" + r.value.0 == r.value.0 && [] + r.value.1 == r.value.1;
    }
  }

  lemma JoinTwice(p: string, cs: seq<RawCall>, q: string, ds: seq<RawCall>, r: Result<(string, seq<RawCall>)>)
    ensures Join(p, cs, Join(q, ds, r)) == Join(p + q, cs + ds, r)
  {
    if r.Ok? {
      assert p + (q + r.value.0) == (p + q) + r.value.0;
      assert cs + (ds + r.value.1) == (cs + ds) + r.value.1;
    }
  }

  method NormalizeToolMarkup(codec: Codec, content: string, tools: Value)
    returns (r: Result<Option<(string, seq<ToolCall>)>>)
    ensures r == Normalize(codec, content, tools)
  {
    if Find(content, OPEN).None? {
      return Ok(None);
    }
    var scanned := ScanBlocks(codec, content, tools);
    if scanned.Err? {
      return Err(scanned.error);
    }
    var (plain, calls) := scanned.value;
    if calls == [] {
      return Err(NoCalls);
    }
    r := Ok(Some((Trim(plain), calls)));
  }

  /** The loop of `normalize_tool_markup`: plain text and numbered calls accumulate. */
  method ScanBlocks(codec: Codec, content: string, tools: Value) returns (r: Result<(string, seq<ToolCall>)>)
    ensures match Scan(codec, tools, content)
            case Ok((plain, raw)) => r == Ok((plain, WithIds(raw)))
            case Err(e) => r == Err(e)
  {
    var rest := content;
    var plain := "";
    var calls: seq<ToolCall> := [];
    ghost var raw: seq<RawCall> := [];
    var next := NextBlock(rest);
    JoinNone(Scan(codec, tools, rest));
    while next.Element?
      invariant next == NextBlock(rest)
      invariant Scan(codec, tools, content) == Join(plain, raw, Scan(codec, tools, rest))
      invariant calls == WithIds(raw)
      decreases |rest|
    {
      var accepted := AcceptBlock(codec, tools, next.inner, calls, raw);
      if accepted.Err? {
        return Err(accepted.error);
      }
      ghost var block := CheckedBlock(codec, tools, next.inner).value;
      JoinTwice(plain, raw, next.gap, block, Scan(codec, tools, next.rest));
      plain := plain + next.gap;
      calls := accepted.value;
      raw := raw + block;
      rest := next.rest;
      next := NextBlock(rest);
    }
    if next.Malformed? {
      return Err(next.error);
    }
    assert raw + [] == raw;
    r := Ok((plain + rest, calls));
  }

  /** Parse one block and number its calls after those already collected. */
  method AcceptBlock(codec: Codec, tools: Value, body: string, before: seq<ToolCall>, ghost raw: seq<RawCall>)
    returns (r: Result<seq<ToolCall>>)
    requires before == WithIds(raw)
    ensures match CheckedBlock(codec, tools, body)
            case Ok(calls) => r == Ok(WithIds(raw + calls))
            case Err(e) => r == Err(e)
  {
    var parsed := ParseToolBlock(codec, Trim(body));
    if parsed.Err? {
      return Err(parsed.error);
    }
    r := PushCalls(tools, parsed.value, before, raw);
  }

  lemma NextId(raw: seq<RawCall>, more: seq<RawCall>, c: RawCall)
    ensures var before := WithIds(raw + more);
      WithIds(raw + (more + [c])) == before + [ToolCall(SynthesizedId(|before|), c.name, c.arguments)]
  {
    assert raw + (more + [c]) == (raw + more) + [c];
  }

  /** The loop over one block's calls: each name is checked, then the call gets the next id. */
  method PushCalls(tools: Value, parsed: seq<RawCall>, before: seq<ToolCall>, ghost raw: seq<RawCall>)
    returns (r: Result<seq<ToolCall>>)
    requires before == WithIds(raw)
    ensures match CheckNames(tools, parsed)
            case Ok(calls) => calls == parsed && r == Ok(WithIds(raw + parsed))
            case Err(e) => r == Err(e)
  {
    var calls := before;
    assert raw + parsed[..0] == raw;
    assert parsed[0..] == parsed;
    PrefixNone(CheckNames(tools, parsed));
    for i := 0 to |parsed|
      invariant calls == WithIds(raw + parsed[..i])
      invariant CheckNames(tools, parsed) == Prefix(parsed[..i], CheckNames(tools, parsed[i..]))
    {
      if !Offered(tools, parsed[i].name) {
        return Err(UnknownFunction(parsed[i].name));
      }
      PrefixSnoc(parsed[..i], parsed[i], CheckNames(tools, parsed[i + 1..]));
      assert parsed[..i + 1] == parsed[..i] + [parsed[i]];
      NextId(raw, parsed[..i], parsed[i]);
      calls := calls + [ToolCall(SynthesizedId(|calls|), parsed[i].name, parsed[i].arguments)];
    }
    assert parsed[..|parsed|] == parsed;
    r := Ok(calls);
  }
}
