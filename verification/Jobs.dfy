/** Leased jobs and their results (types.rs), and the recognition of a result that asks a
    question instead of answering (`context_request`, coordinator_client.rs). */
module Jobs {
  import opened Text
  import opened Json

  datatype PrivacyLevel = Public | Private | Sensitive | LocalOnly

  datatype Job = Job(jobId: string, leaseId: Option<string>, capability: string, privacy: PrivacyLevel,
                     allowExternal: bool, payload: Value)

  datatype JobStatus = Succeeded | Rejected | Failed

  /** Token counts of a finished call; latency is left out. */
  datatype ResultUsage = ResultUsage(provider: string, model: string, tokens: Usage)

  /** `Why` is the reason text of a rejected or failed job. */
  datatype JobResult<+Why> = JobResult(jobId: string, leaseId: Option<string>, status: JobStatus, reason: Option<Why>,
                                       output: Option<Value>, usage: Option<ResultUsage>)

  datatype JobInputRequest = JobInputRequest(jobId: string, leaseId: string, requestId: string, requests: seq<Value>,
                                             assistantMessage: Value, usage: Option<ResultUsage>)

  const CONTEXT_REQUEST_TOOL := "hydra_request_context"

  /** `call.function.name`, or `call.name` when the former is missing; a non-string is no name. */
  function ToolName(call: Value): Option<string> {
    match call.At("function").Get("name")
    case Some(name) => name.AsStr()
    case None => match call.Get("name") case Some(name) => name.AsStr() case None => None
  }

  function RawArguments(call: Value): Option<Value> {
    match call.At("function").Get("arguments")
    case Some(raw) => Some(raw)
    case None => call.Get("arguments")
  }

  /** Arguments as a JSON string are decoded, undecodable ones becoming null. */
  function RequestOf(codec: Codec, call: Value): Option<Value> {
    match RawArguments(call)
    case None => None
    case Some(raw) =>
      var parsed := if !raw.Str? then raw else match codec.parse(raw.s) case Some(v) => v case None => Null;
      var base := map["arguments" := parsed];
      Some(Obj(if call.At("id").Str? then base["tool_call_id" := call.At("id")] else base))
  }

  function RequestsIn(codec: Codec, calls: seq<Value>): seq<Value> {
    if calls == [] then []
    else
      var rest := RequestsIn(codec, calls[1..]);
      if ToolName(calls[0]) != Some(CONTEXT_REQUEST_TOOL) then rest
      else match RequestOf(codec, calls[0]) case Some(r) => [r] + rest case None => rest
  }

  function FromResult<Why>(codec: Codec, result: JobResult<Why>, requestId: string): Option<JobInputRequest> {
    if result.status != Succeeded || result.leaseId.None? || result.output.None? then None
    else
      var calls := result.output.value.At("tool_calls");
      if !calls.Arr? then None
      else
        var requests := RequestsIn(codec, calls.items);
        if requests == [] then None
        else
          var message := Obj(map["role" := Str("assistant"),
                                 "content" := result.output.value.At("content"),
                                 "tool_calls" := calls]);
          Some(JobInputRequest(result.jobId, result.leaseId.value, requestId, requests, message, result.usage))
  }

  /** A reserved call with something to forward. */
  predicate Asks(call: Value) {
    ToolName(call) == Some(CONTEXT_REQUEST_TOOL) && RawArguments(call).Some?
  }

  lemma {:induction false} RequestsIff(codec: Codec, calls: seq<Value>)
    ensures RequestsIn(codec, calls) != [] <==> exists c | c in calls :: Asks(c)
  {
    if calls != [] {
      RequestsIff(codec, calls[1..]);
      var first, rest := calls[0], calls[1..];
      assert calls == [first] + rest;
      if Asks(first) {
        assert first in calls && RequestOf(codec, first).Some?;
      } else {
        assert RequestsIn(codec, calls) == RequestsIn(codec, rest);
        assert forall c | c in rest :: c in calls;
        assert forall c | c in calls && Asks(c) :: c in rest;
      }
    }
  }

  /** A result pauses the job exactly when it succeeded under a lease and its output carries a
      reserved call; the request then names that job and that lease. */
  lemma PausesIff<Why>(codec: Codec, result: JobResult<Why>, requestId: string)
    ensures var r := FromResult(codec, result, requestId);
      && (r.Some? <==> && result.status == Succeeded && result.leaseId.Some? && result.output.Some?
                       && exists c | c in result.output.value.At("tool_calls").Elements() :: Asks(c))
      && (r.Some? ==> r.value.jobId == result.jobId && Some(r.value.leaseId) == result.leaseId
                      && r.value.requestId == requestId)
  {
    if result.output.Some? {
      RequestsIff(codec, result.output.value.At("tool_calls").Elements());
    }
  }

  // ---- what a request holds ------------------------------------------------------------

  /** The value of a member of the nested function, or of the call itself when it has no such member. */
  ghost predicate Carries(call: Value, member: string, v: Value) {
    var f := call.At("function");
    if f.Obj? && member in f.fields then f.fields[member] == v
    else call.Obj? && member in call.fields && call.fields[member] == v
  }

  /** What a call's arguments are forwarded as: a string is decoded, and one that is not JSON is null. */
  ghost predicate Forwards(codec: Codec, raw: Value, v: Value) {
    if raw.Str? then v == (if codec.parse(raw.s).Some? then codec.parse(raw.s).value else Null) else v == raw
  }

  /** A request: the call's arguments, and the call's id when it is a string. */
  ghost predicate RequestFor(codec: Codec, call: Value, request: Value) {
    && request.Obj? && "arguments" in request.fields
    && (exists raw :: Carries(call, "arguments", raw) && Forwards(codec, raw, request.fields["arguments"]))
    && (if call.At("id").Str? then request == Obj(map["arguments" := request.fields["arguments"], "tool_call_id" := call.At("id")])
        else request == Obj(map["arguments" := request.fields["arguments"]]))
  }

  lemma RequestIs(codec: Codec, call: Value)
    ensures RequestOf(codec, call).Some? <==> exists raw :: Carries(call, "arguments", raw)
    ensures RequestOf(codec, call).Some? ==> RequestFor(codec, call, RequestOf(codec, call).value)
    ensures ToolName(call) == Some(CONTEXT_REQUEST_TOOL) <==> Carries(call, "name", Str("hydra_request_context"))
  {
    if RawArguments(call).Some? {
      assert Carries(call, "arguments", RawArguments(call).value);
    }
  }

  ghost predicate AsksFor(call: Value) {
    Carries(call, "name", Str("hydra_request_context")) && exists raw :: Carries(call, "arguments", raw)
  }

  /** The calls that ask, in order. */
  ghost function Asking(calls: seq<Value>): seq<Value> {
    if calls == [] then [] else (if AsksFor(calls[0]) then [calls[0]] else []) + Asking(calls[1..])
  }

  ghost predicate RequestsFor(codec: Codec, calls: seq<Value>, requests: seq<Value>) {
    |requests| == |calls| && forall i | 0 <= i < |calls| :: RequestFor(codec, calls[i], requests[i])
  }

  lemma OneMoreRequest(codec: Codec, call: Value, request: Value, calls: seq<Value>, requests: seq<Value>)
    requires RequestsFor(codec, calls, requests) && RequestFor(codec, call, request)
    ensures RequestsFor(codec, [call] + calls, [request] + requests)
  {
  }

  /** One request for each call of the reserved function that carries arguments, in order, and no other. */
  lemma {:induction false} RequestsAre(codec: Codec, calls: seq<Value>)
    ensures RequestsFor(codec, Asking(calls), RequestsIn(codec, calls))
  {
    if calls != [] {
      RequestsAre(codec, calls[1..]);
      FirstRequest(codec, calls);
      var asked, made := Asking(calls[1..]), RequestsIn(codec, calls[1..]);
      if AsksFor(calls[0]) {
        var r :| RequestFor(codec, calls[0], r) && RequestsIn(codec, calls) == [r] + made;
        OneMoreRequest(codec, calls[0], r, asked, made);
      } else {
        assert [] + asked == asked;
      }
    }
  }

  lemma FirstRequest(codec: Codec, calls: seq<Value>)
    requires calls != []
    ensures var rest := RequestsIn(codec, calls[1..]);
      if AsksFor(calls[0]) then
        exists r :: RequestFor(codec, calls[0], r) && RequestsIn(codec, calls) == [r] + rest
      else RequestsIn(codec, calls) == rest
  {
    RequestIs(codec, calls[0]);
    if AsksFor(calls[0]) {
      assert RequestFor(codec, calls[0], RequestOf(codec, calls[0]).value);
    }
  }

  /** What goes with the requests: the turn that asked, as it was, and the usage so far. */
  lemma PauseHolds<Why>(codec: Codec, result: JobResult<Why>, requestId: string)
    requires FromResult(codec, result, requestId).Some?
    ensures var r, output := FromResult(codec, result, requestId).value, result.output.value;
      && r.requests == RequestsIn(codec, output.At("tool_calls").Elements()) && r.usage == result.usage
      && r.assistantMessage == Obj(map["role" := Str("assistant"), "content" := output.At("content"),
                                       "tool_calls" := output.At("tool_calls")])
  {
  }

  // ---- the output the gateway builds ---------------------------------------------------

  /** A tool call as JSON. */
  function CallValue(call: ToolCall): Value {
    Obj(map["id" := Str(call.id), "type" := Str("function"),
            "function" := Obj(map["name" := Str(call.name), "arguments" := Str(call.arguments)])])
  }

  function CallValues(calls: seq<ToolCall>): (r: seq<Value>)
    ensures |r| == |calls| && forall i | 0 <= i < |calls| :: r[i] == CallValue(calls[i])
  {
    seq(|calls|, i requires 0 <= i < |calls| => CallValue(calls[i]))
  }

  function OutputOf(content: string, calls: Option<seq<ToolCall>>): Value {
    var base := map["content" := Str(content)];
    Obj(match calls case Some(cs) => base["tool_calls" := Arr(CallValues(cs))] case None => base)
  }

  /** The JSON object for a content and, if there are any, its calls. */
  ghost predicate OutputSays(output: Value, content: string, calls: Option<seq<ToolCall>>) {
    match calls
    case None => output == Obj(map["content" := Str(content)])
    case Some(cs) =>
      && output.At("tool_calls").Arr? && var items := output.At("tool_calls").items;
      && output == Obj(map["content" := Str(content), "tool_calls" := Arr(items)])
      && |items| == |cs| && forall i | 0 <= i < |cs| :: CallSays(items[i], cs[i])
  }

  ghost predicate CallSays(item: Value, call: ToolCall) {
    item == Obj(map["id" := Str(call.id), "type" := Str("function"),
                    "function" := Obj(map["name" := Str(call.name), "arguments" := Str(call.arguments)])])
  }

  lemma OutputIs(content: string, calls: Option<seq<ToolCall>>)
    ensures OutputSays(OutputOf(content, calls), content, calls)
  {
    if calls.Some? {
      assert forall i | 0 <= i < |calls.value| :: CallSays(CallValues(calls.value)[i], calls.value[i]);
    }
  }

  /** For an answer the gateway built, the question is exactly a call of the reserved function. */
  lemma GatewayAnswerPausesIff<Why>(codec: Codec, result: JobResult<Why>, requestId: string, content: string,
                                    calls: Option<seq<ToolCall>>)
    requires result.status == Succeeded && result.leaseId.Some? && result.output == Some(OutputOf(content, calls))
    ensures FromResult(codec, result, requestId).Some?
       <==> calls.Some? && exists c | c in calls.value :: c.name == CONTEXT_REQUEST_TOOL
  {
    PausesIff(codec, result, requestId);
    var elements := result.output.value.At("tool_calls").Elements();
    if calls.Some? {
      var cs := calls.value;
      assert elements == CallValues(cs);
      forall i | 0 <= i < |cs|
        ensures Asks(elements[i]) <==> cs[i].name == CONTEXT_REQUEST_TOOL
      {
        assert ToolName(CallValue(cs[i])) == Some(cs[i].name);
      }
    }
  }
}
