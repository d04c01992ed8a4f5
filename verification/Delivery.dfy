/** What a job's observer and the coordinator get, end to end: the gateway around the stream
    assemblers, and its callbacks driving the frames of a lease generation. */
module Delivery {
  import opened Text
  import opened Json
  import opened Jobs
  import opened Privacy
  import opened Routing
  import opened ToolMarkup
  import opened LineFraming
  import opened Gateway
  import opened Progress
  import opened WireTrace
  import Limits
  import ToolMarkupGrammar
  import opened Backends

  // ---- one execution -------------------------------------------------------------------

  function AnswerIn(seen: seq<Seen>): string {
    AnswerText(DeltasIn(seen))
  }

  /** The content of the output, if there is one. */
  function ContentIn(e: Execution): Option<string> {
    match e.result
    case None => None
    case Some(result) => match result.output case Some(output) => output.At("content").AsStr() case None => None
  }

  /** The verdict on the reply of a planned call. */
  function Judged(codec: Codec, conforms: (Value, Value) -> bool, plan: Plan, reply: Reply): Verdict
    requires plan.Go?
  {
    VerdictOf(codec, conforms, plan.tools, plan.schema, reply.result)
  }

  lemma EmptyBefore<T>(a: seq<T>, b: seq<T>)
    requires a == []
    ensures a + b == b
  {
  }

  lemma SelectionFirst(site: Site, route: Route, deltas: seq<Delta>)
    ensures DeltasIn(Selection(site, route) + Fragments(deltas)) == deltas
  {
    SelectionHasNoDeltas(site, route);
    DeltasInAppend(Selection(site, route), deltas);
    EmptyBefore(DeltasIn(Selection(site, route)), deltas);
  }

  lemma SelectionIsOrderly(site: Site, route: Route, deltas: seq<Delta>)
    ensures Orderly(Selection(site, route))
    ensures route.Chosen? && route.position < |site.catalog| ==> Orderly(Selection(site, route) + Fragments(deltas))
  {
  }

  lemma SeenDeltas(site: Site, codec: Codec, decodes: Value -> bool, conforms: (Value, Value) -> bool, job: Job,
                   reply: Reply, e: Execution)
    requires Follows(site, codec, decodes, conforms, job, reply, e)
    ensures var plan := PlanFor(decodes, job, e.route, e.outcome);
      DeltasIn(e.seen) == if plan.Go? then Forwarded(plan, Judged(codec, conforms, plan, reply), reply.emitted) else []
    ensures Orderly(e.seen)
  {
    var plan := PlanFor(decodes, job, e.route, e.outcome);
    var deltas := if plan.Go? then Forwarded(plan, Judged(codec, conforms, plan, reply), reply.emitted) else [];
    SelectionFirst(site, e.route, deltas);
    SelectionIsOrderly(site, e.route, deltas);
    SelectionHasNoDeltas(site, e.route);
  }

  /** Without tools or a schema an answer is delivered as it came. */
  lemma LiveIsUntouched(codec: Codec, conforms: (Value, Value) -> bool, plan: Plan, reply: Reply)
    requires plan.Go? && !MustBuffer(plan) && Judged(codec, conforms, plan, reply).Deliver?
    ensures reply.result == Answered(Judged(codec, conforms, plan, reply).response)
  {
  }

  lemma ForwardedText(plan: Plan, resp: ChatResponse, emitted: seq<Delta>)
    ensures MustBuffer(plan) ==> AnswerText(Forwarded(plan, Deliver(resp), emitted)) == resp.content
  {
    AnswerTextSnoc([], Delta(resp.content, false));
    assert [] + [Delta(resp.content, false)] == [Delta(resp.content, false)] && "" + resp.content == resp.content;
  }

  /** On success the answer deltas the observer received concatenate to the output's content, exactly
      when the call was buffered or the reply forwarded its content. */
  lemma DeliveredIsReplied(site: Site, codec: Codec, decodes: Value -> bool, conforms: (Value, Value) -> bool, job: Job,
                           reply: Reply, e: Execution)
    requires Follows(site, codec, decodes, conforms, job, reply, e) && e.Succeeds()
    ensures Some(AnswerIn(e.seen)) == ContentIn(e)
       <==> MustBuffer(PlanFor(decodes, job, e.route, e.outcome)) || StreamsItsContent(reply)
  {
    SeenDeltas(site, codec, decodes, conforms, job, reply, e);
    var plan := PlanFor(decodes, job, e.route, e.outcome);
    ResultOfPlan(site, codec, decodes, conforms, job, reply, e);
    var verdict := Judged(codec, conforms, plan, reply);
    if MustBuffer(plan) {
      ForwardedText(plan, verdict.response, reply.emitted);
    } else {
      LiveIsUntouched(codec, conforms, plan, reply);
    }
  }

  /** End-to-end delivery, from the network chunks of a backend to the observer: on success the answer
      deltas observed concatenate to the content of the result, for every body and every way it is cut
      into chunks, exactly when the job offers tools or asks for a format, or the backend forwards its answer. */
  lemma DeliveredIsContent(site: Site, codec: Codec, decodes: Value -> bool, conforms: (Value, Value) -> bool, job: Job,
                           backend: Backend, e: Execution)
    requires Follows(site, codec, decodes, conforms, job, ReplyOf(codec, backend), e) && e.Succeeds()
    ensures Some(AnswerIn(e.seen)) == ContentIn(e)
       <==> AsksToWait(job) || ForwardsAnswer(codec, backend)
  {
    ResultOfPlan(site, codec, decodes, conforms, job, ReplyOf(codec, backend), e);
    BuffersIff(decodes, job, e.route, e.outcome);
    DeliveredIsReplied(site, codec, decodes, conforms, job, ReplyOf(codec, backend), e);
    BackendStreamsIff(codec, backend);
  }

  /** Where it fails: on a backend without streaming every live call succeeds, with an answer of which
      the observer sees nothing. */
  lemma SilentAnswerIsLost(site: Site, codec: Codec, decodes: Value -> bool, conforms: (Value, Value) -> bool, job: Job,
                           response: ChatResponse, e: Execution)
    requires Follows(site, codec, decodes, conforms, job, ReplyOf(codec, Silent(response)), e)
    requires Admits(decodes, job, e.route, e.outcome) && !AsksToWait(job)
    ensures e.Succeeds() && ContentIn(e) == Some(response.content) && AnswerIn(e.seen) == ""
  {
    PlanIff(decodes, job, e.route, e.outcome);
    SeenDeltas(site, codec, decodes, conforms, job, ReplyOf(codec, Silent(response)), e);
    ResultOfPlan(site, codec, decodes, conforms, job, ReplyOf(codec, Silent(response)), e);
  }

  const LOCAL := Entry("local", "small", ["chat"])
  const SITE := Site([LOCAL], map["local" := false], RoutingPolicy(PreferLocal, true, []), [Public])
  const JOB := Job("1", None, "chat", Public, false, Obj(map["messages" := Arr([])]))

  /** There are such calls: a site with one local backend, and a job it serves without tools or a schema. */
  lemma LiveCallExists(decodes: Value -> bool)
    requires decodes(Arr([]))
    ensures IsRoute(SITE, JOB, Route.Chosen(0))
    ensures Admits(decodes, JOB, Route.Chosen(0), Limits.Reserved) && !AsksToWait(JOB)
  {
    assert Eligible(SITE, JOB, 0);
    assert forall j | Eligible(SITE, JOB, j) :: j == 0;
  }

  /** An execution on a silent backend, with a selection and no delta. */
  function SilentRun(site: Site, job: Job, position: nat, response: ChatResponse): Execution
    requires position < |site.catalog|
  {
    var entry := site.catalog[position];
    Execution(Route.Chosen(position), Limits.Reserved, Some(Delivered(job, entry, response)),
              [Picked(entry.provider, entry.model)], Some(true), 0)
  }

  lemma SilentRunFollows(site: Site, codec: Codec, decodes: Value -> bool, conforms: (Value, Value) -> bool, job: Job,
                         position: nat, response: ChatResponse)
    requires position < |site.catalog| && Admits(decodes, job, Route.Chosen(position), Limits.Reserved) && !AsksToWait(job)
    ensures Follows(site, codec, decodes, conforms, job, ReplyOf(codec, Silent(response)), SilentRun(site, job, position, response))
  {
    PlanIff(decodes, job, Route.Chosen(position), Limits.Reserved);
    var seen := SilentRun(site, job, position, response).seen;
    assert seen + Fragments([]) == seen;
  }

  /** So delivery does fail, whatever the answer, unless it is empty. */
  lemma DeliveryCanFail(codec: Codec, decodes: Value -> bool, conforms: (Value, Value) -> bool, response: ChatResponse)
    requires decodes(Arr([])) && response.content != ""
    ensures exists e: Execution ::
      && IsRoute(SITE, JOB, e.route) && Follows(SITE, codec, decodes, conforms, JOB, ReplyOf(codec, Silent(response)), e)
      && e.Succeeds() && Some(AnswerIn(e.seen)) != ContentIn(e)
  {
    LiveCallExists(decodes);
    var e := SilentRun(SITE, JOB, 0, response);
    SilentRunFollows(SITE, codec, decodes, conforms, JOB, 0, response);
    SilentAnswerIsLost(SITE, codec, decodes, conforms, JOB, response, e);
  }

  /** A success delivers what was judged deliverable. */
  lemma ResultOfPlan(site: Site, codec: Codec, decodes: Value -> bool, conforms: (Value, Value) -> bool, job: Job,
                     reply: Reply, e: Execution)
    requires Follows(site, codec, decodes, conforms, job, reply, e)
    ensures var plan := PlanFor(decodes, job, e.route, e.outcome);
      && (e.Succeeds() <==> plan.Go? && Judged(codec, conforms, plan, reply).Deliver?)
      && (e.Succeeds() ==>
            var resp := Judged(codec, conforms, plan, reply).response;
            e.result.value.output == Some(OutputOf(resp.content, resp.toolCalls)) && ContentIn(e) == Some(resp.content))
  {
  }

  /** A job that offers tools or asks for a format has nothing delivered before its outcome is known: at
      most one delta, the whole content, and none unless it succeeded. */
  lemma BufferedIsWhole(site: Site, codec: Codec, decodes: Value -> bool, conforms: (Value, Value) -> bool, job: Job,
                        reply: Reply, e: Execution)
    requires Follows(site, codec, decodes, conforms, job, reply, e) && AsksToWait(job)
    ensures DeltasIn(e.seen) == if e.Succeeds() && ContentIn(e) != Some("") then [Delta(ContentIn(e).value, false)] else []
  {
    SeenDeltas(site, codec, decodes, conforms, job, reply, e);
    ResultOfPlan(site, codec, decodes, conforms, job, reply, e);
    if PlanFor(decodes, job, e.route, e.outcome).Go? {
      BuffersIff(decodes, job, e.route, e.outcome);
    }
  }

  /** Any other job is delivered as its adapter forwards, and succeeds exactly when it is answered, with
      that answer. */
  lemma LiveIsForwarded(site: Site, codec: Codec, decodes: Value -> bool, conforms: (Value, Value) -> bool, job: Job,
                        reply: Reply, e: Execution)
    requires Follows(site, codec, decodes, conforms, job, reply, e)
    requires Admits(decodes, job, e.route, e.outcome) && !AsksToWait(job)
    ensures DeltasIn(e.seen) == reply.emitted && (e.Succeeds() <==> reply.result.Answered?)
    ensures e.Succeeds() ==>
              var response := reply.result.response;
              && e.result.value.output.Some? && OutputSays(e.result.value.output.value, response.content, response.toolCalls)
              && ContentIn(e) == Some(response.content)
  {
    PlanIff(decodes, job, e.route, e.outcome);
    SeenDeltas(site, codec, decodes, conforms, job, reply, e);
    ResultOfPlan(site, codec, decodes, conforms, job, reply, e);
    if reply.result.Answered? {
      AnsweredLive(codec, conforms, reply);
      OutputIs(reply.result.response.content, reply.result.response.toolCalls);
    }
  }

  lemma AnsweredLive(codec: Codec, conforms: (Value, Value) -> bool, reply: Reply)
    requires reply.result.Answered?
    ensures VerdictOf(codec, conforms, None, None, reply.result) == Deliver(reply.result.response)
  {
  }

  /** A job that asks for a strict schema succeeds only with content that is the printed form of a value
      that conforms to it: the value of the answer's own JSON text, when no tools are offered. */
  lemma SchemaJobConforms(site: Site, codec: Codec, decodes: Value -> bool, conforms: (Value, Value) -> bool, job: Job,
                          reply: Reply, e: Execution, schema: Value) returns (v: Value)
    requires Follows(site, codec, decodes, conforms, job, reply, e) && e.Succeeds()
    requires AsksSchema(job.payload.At("response_format"), schema)
    ensures conforms(v, schema) && ContentIn(e) == Some(codec.render(v))
    ensures reply.result.Answered?
    ensures job.payload.At("tools").Null? ==> codec.parse(JsonText(reply.result.response.content)) == Some(v)
  {
    var plan := PlanFor(decodes, job, e.route, e.outcome);
    ResultOfPlan(site, codec, decodes, conforms, job, reply, e);
    PlannedSchema(decodes, job, e.route, e.outcome, schema);
    v := DeliveredValue(codec, conforms, plan.tools, schema, reply);
  }

  lemma PlannedSchema(decodes: Value -> bool, job: Job, route: Route, outcome: Limits.Outcome, schema: Value)
    requires PlanFor(decodes, job, route, outcome).Go? && AsksSchema(job.payload.At("response_format"), schema)
    ensures PlanFor(decodes, job, route, outcome).schema == Some(schema)
    ensures job.payload.At("tools").Null? ==> PlanFor(decodes, job, route, outcome).tools == None
  {
    PlanIff(decodes, job, route, outcome);
  }

  lemma DeliveredValue(codec: Codec, conforms: (Value, Value) -> bool, tools: Option<Value>, schema: Value, reply: Reply)
    returns (v: Value)
    requires VerdictOf(codec, conforms, tools, Some(schema), reply.result).Deliver?
    ensures conforms(v, schema) && VerdictOf(codec, conforms, tools, Some(schema), reply.result).response.content == codec.render(v)
    ensures reply.result.Answered? && (tools == None ==> codec.parse(JsonText(reply.result.response.content)) == Some(v))
  {
    var recovered := Recovered(codec, tools, reply.result.response).response;
    v := ValidatedValue(codec, conforms, schema, recovered);
  }

  lemma ValidatedValue(codec: Codec, conforms: (Value, Value) -> bool, schema: Value, resp: ChatResponse) returns (v: Value)
    requires Structured(codec, conforms, Some(schema), resp).Deliver?
    ensures codec.parse(JsonText(resp.content)) == Some(v) && conforms(v, schema)
    ensures Structured(codec, conforms, Some(schema), resp).response.content == codec.render(v)
  {
    v := ReprintedValue(codec, conforms, codec.parse(JsonText(resp.content)), schema);
  }

  lemma ReprintedValue(codec: Codec, conforms: (Value, Value) -> bool, read: Option<Value>, schema: Value) returns (v: Value)
    requires Reprinted(codec, conforms, read, schema).Some?
    ensures read == Some(v) && conforms(v, schema) && Reprinted(codec, conforms, read, schema) == Some(codec.render(v))
  {
    v := read.value;
  }

  /** Observers: at most one selection, before every delta; a delta only for a job that reached its
      adapter; and a selection names the routed backend. */
  lemma ObserversSee(site: Site, codec: Codec, decodes: Value -> bool, conforms: (Value, Value) -> bool, job: Job,
                     reply: Reply, e: Execution)
    requires Follows(site, codec, decodes, conforms, job, reply, e)
    ensures Orderly(e.seen) && (e.seen == [] <==> !ReachesLimiter(decodes, job, e.route))
    ensures DeltasIn(e.seen) != [] ==> Admits(decodes, job, e.route, e.outcome)
    ensures e.seen != [] ==>
              && e.route.Chosen? && e.route.position < |site.catalog|
              && e.seen[0] == Picked(site.catalog[e.route.position].provider, site.catalog[e.route.position].model)
  {
    PlanIff(decodes, job, e.route, e.outcome);
    SeenDeltas(site, codec, decodes, conforms, job, reply, e);
  }

  /** Neither recovering calls nor validating touches the token counts. */
  lemma UsageKept(codec: Codec, conforms: (Value, Value) -> bool, tools: Option<Value>, schema: Option<Value>,
                  result: AdapterResult)
    ensures var v := VerdictOf(codec, conforms, tools, schema, result);
      v.Deliver? ==> result.Answered? && v.response.usage == result.response.usage
  {
    if result.Answered? {
      RecoveryKeepsUsage(codec, tools, result.response);
      if Recovered(codec, tools, result.response).Deliver? {
        ValidationKeepsUsage(codec, conforms, schema, Recovered(codec, tools, result.response).response);
      }
    }
  }

  lemma RecoveryKeepsUsage(codec: Codec, tools: Option<Value>, resp: ChatResponse)
    ensures var v := Recovered(codec, tools, resp);
      (v.Deliver? || v.Fail?) && (v.Deliver? ==> v.response.usage == resp.usage)
  {
  }

  lemma ValidationKeepsUsage(codec: Codec, conforms: (Value, Value) -> bool, schema: Option<Value>, resp: ChatResponse)
    ensures var v := Structured(codec, conforms, schema, resp);
      v.Deliver? ==> v.response.usage == resp.usage
  {
  }

  /** A result names its job and lease; it has output and usage exactly when it succeeded, the usage
      being that of the answer and naming the routed backend, and a
      reason exactly when it did not. A usage record is written for every success and for every
      failure of the provider, but for no answer that was refused after it arrived. */
  lemma ResultAndRecord(site: Site, codec: Codec, decodes: Value -> bool, conforms: (Value, Value) -> bool, job: Job,
                        reply: Reply, e: Execution)
    requires Follows(site, codec, decodes, conforms, job, reply, e)
    ensures e.result.Some? ==>
              && e.result.value.jobId == job.jobId && e.result.value.leaseId == job.leaseId
              && (e.Succeeds() <==> e.result.value.reason.None?) && (e.Succeeds() <==> e.result.value.output.Some?)
              && (e.Succeeds() <==> e.result.value.usage.Some?)
    ensures e.Succeeds() ==>
              && reply.result.Answered? && e.route.Chosen? && e.route.position < |site.catalog|
              && var entry := site.catalog[e.route.position];
              e.result.value.usage == Some(ResultUsage(entry.provider, entry.model, reply.result.response.usage))
    ensures e.recorded == Some(true) <==> e.Succeeds()
    ensures e.recorded == Some(false) <==> Admits(decodes, job, e.route, e.outcome) && reply.result.Refuses?
  {
    PlanIff(decodes, job, e.route, e.outcome);
    var plan := PlanFor(decodes, job, e.route, e.outcome);
    if plan.Go? {
      UsageKept(codec, conforms, plan.tools, plan.schema, reply.result);
    }
  }

  lemma AbandonedWithout(site: Site, codec: Codec, decodes: Value -> bool, conforms: (Value, Value) -> bool, job: Job,
                         reply: Reply, e: Execution)
    requires Follows(site, codec, decodes, conforms, job, reply, e)
    ensures e.result.None? <==> PlanFor(decodes, job, e.route, e.outcome).Go? && reply.result.Abandoned?
    ensures e.result.None? ==> e.recorded == None
  {
  }

  /** An execution has no result exactly when its call was abandoned; it then leaves no record, and the
      deltas forwarded until then, which are none if the call was buffered, stay forwarded. */
  lemma AbandonedIff(site: Site, codec: Codec, decodes: Value -> bool, conforms: (Value, Value) -> bool, job: Job,
                     reply: Reply, e: Execution)
    requires Follows(site, codec, decodes, conforms, job, reply, e)
    ensures e.result.None? <==> Admits(decodes, job, e.route, e.outcome) && reply.result.Abandoned?
    ensures e.result.None? ==> e.recorded == None && DeltasIn(e.seen) == if AsksToWait(job) then [] else reply.emitted
  {
    PlanIff(decodes, job, e.route, e.outcome);
    AbandonedWithout(site, codec, decodes, conforms, job, reply, e);
    if e.result.None? {
      SeenDeltas(site, codec, decodes, conforms, job, reply, e);
      BuffersIff(decodes, job, e.route, e.outcome);
    }
  }

  /** Calls are recovered from a text exactly when tools were offered and an opening tag occurs in it,
      and then they only name offered functions. */
  ghost predicate RecoveredFrom(tools: Option<Value>, content: string, calls: Option<seq<ToolCall>>) {
    && (calls.Some? <==> tools.Some? && Contains(content, OPEN))
    && (calls.Some? ==> OfferedInOrder(tools.value, calls.value))
  }

  lemma RecoveredCallsAreOffered(codec: Codec, conforms: (Value, Value) -> bool, tools: Option<Value>,
                                 schema: Option<Value>, answer: ChatResponse)
    requires VerdictOf(codec, conforms, tools, schema, Answered(answer)).Deliver? && answer.toolCalls.None?
    ensures RecoveredFrom(tools, answer.content, VerdictOf(codec, conforms, tools, schema, Answered(answer)).response.toolCalls)
  {
    var recovered := JudgedInTwo(codec, conforms, tools, schema, answer);
    RecoveredAreOffered(codec, tools, answer, recovered);
  }

  /** A verdict on an answer: recovery, then validation, which leaves the calls alone. */
  lemma JudgedInTwo(codec: Codec, conforms: (Value, Value) -> bool, tools: Option<Value>, schema: Option<Value>,
                    answer: ChatResponse) returns (recovered: ChatResponse)
    requires VerdictOf(codec, conforms, tools, schema, Answered(answer)).Deliver?
    ensures Recovered(codec, tools, answer) == Deliver(recovered)
    ensures VerdictOf(codec, conforms, tools, schema, Answered(answer)).response.toolCalls == recovered.toolCalls
  {
    recovered := Recovered(codec, tools, answer).response;
    StructuredKeepsCalls(codec, conforms, schema, recovered);
  }

  lemma RecoveredAreOffered(codec: Codec, tools: Option<Value>, answer: ChatResponse, recovered: ChatResponse)
    requires answer.toolCalls.None? && Recovered(codec, tools, answer) == Deliver(recovered)
    ensures RecoveredFrom(tools, answer.content, recovered.toolCalls)
  {
    if tools.Some? {
      ToolMarkupGrammar.NoMarkerIff(codec, tools.value, answer.content);
      var normal := Normalize(codec, answer.content, tools.value);
      if normal.Ok? && normal.value.Some? {
        ToolMarkupGrammar.OnlyOfferedNames(codec, tools.value, answer.content, normal.value.value.0, normal.value.value.1);
      }
    }
  }

  lemma StructuredKeepsCalls(codec: Codec, conforms: (Value, Value) -> bool, schema: Option<Value>, resp: ChatResponse)
    ensures var v := Structured(codec, conforms, schema, resp); v.Deliver? ==> v.response.toolCalls == resp.toolCalls
  {
  }

  /** At least one call, each naming an offered function, with ids that count from 0. */
  predicate OfferedInOrder(tools: Value, calls: seq<ToolCall>) {
    calls != [] && forall i | 0 <= i < |calls| :: Offered(tools, calls[i].name) && calls[i].id == SynthesizedId(i)
  }

  lemma StructuredReads(codec: Codec, conforms: (Value, Value) -> bool, schema: Value, resp: ChatResponse)
    requires Structured(codec, conforms, Some(schema), resp).Deliver? && ReadsBack(codec, codec.parse(JsonText(resp.content)).value)
    ensures var read := codec.parse(Structured(codec, conforms, Some(schema), resp).response.content);
      read == codec.parse(JsonText(resp.content)) && read.Some? && conforms(read.value, schema)
  {
    ValidatedReads(codec, conforms, resp.content, schema);
  }

  lemma ValidatedReads(codec: Codec, conforms: (Value, Value) -> bool, content: string, schema: Value)
    requires Validated(codec, conforms, content, schema).Some? && ReadsBack(codec, codec.parse(JsonText(content)).value)
    ensures var read := codec.parse(Validated(codec, conforms, content, schema).value);
      read == codec.parse(JsonText(content)) && read.Some? && conforms(read.value, schema)
  {
  }

  /** The JSON value found in an answer after tool calls were recovered from it. */
  function AnswerValue(codec: Codec, tools: Option<Value>, answer: ChatResponse): Option<Value> {
    var recovered := Recovered(codec, tools, answer);
    if recovered.Deliver? then codec.parse(JsonText(recovered.response.content)) else None
  }

  /** With a strict schema the delivered content, which is the answer's value reprinted, reads back as
      JSON that conforms to it. */
  lemma StructuredConforms(codec: Codec, conforms: (Value, Value) -> bool, tools: Option<Value>, schema: Value,
                           answer: ChatResponse)
    requires VerdictOf(codec, conforms, tools, Some(schema), Answered(answer)).Deliver?
    requires AnswerValue(codec, tools, answer).Some? ==> ReadsBack(codec, AnswerValue(codec, tools, answer).value)
    ensures var read := codec.parse(VerdictOf(codec, conforms, tools, Some(schema), Answered(answer)).response.content);
      read == AnswerValue(codec, tools, answer) && read.Some? && conforms(read.value, schema)
  {
    StructuredReads(codec, conforms, schema, Recovered(codec, tools, answer).response);
  }

  // ---- the frames a job makes ----------------------------------------------------------

  /** The callbacks of a job drive its generation: a selection, then deltas at their times. */
  function Drive(g: Gen, seen: seq<Seen>, times: seq<nat>): Gen
    requires |times| == |seen|
  {
    if seen == [] then g
    else
      var n := |seen| - 1;
      Driven(Drive(g, seen[..n], times[..n]), seen[n], times[n])
  }

  function Driven(g: Gen, s: Seen, time: nat): Gen {
    match s
    case Picked(provider, model) => Select(g, provider, model)
    case Fragment(delta) => Emit(g, delta, time)
  }

  /** The provider and model of a selection that comes first. */
  function PickedIn(seen: seq<Seen>): Option<(string, string)> {
    if seen != [] && seen[0].Picked? then Some((seen[0].provider, seen[0].model)) else None
  }

  lemma {:induction false} DriveOk(g: Gen, seen: seq<Seen>, times: seq<nat>)
    requires |times| == |seen| && GenOk(g) && g.step == Started && Orderly(seen)
    ensures var d := Drive(g, seen, times);
      && GenOk(d) && d.leased == g.leased && d.deltas == DeltasIn(seen)
      && d.step == if seen == [] then GenStep.Started else GenStep.Chosen
    ensures Drive(g, seen, times).meter.selected == if seen == [] then g.meter.selected else PickedIn(seen)
  {
    if seen != [] {
      var n := |seen| - 1;
      DriveOk(g, seen[..n], times[..n]);
      DriveStep(Drive(g, seen[..n], times[..n]), seen[n], times[n]);
      DeltasInLast(seen);
    }
  }

  lemma DriveStep(g: Gen, s: Seen, time: nat)
    requires GenOk(g) && g.step == if s.Picked? then Started else GenStep.Chosen
    ensures var d := Driven(g, s, time);
      GenOk(d) && d.leased == g.leased && d.step == GenStep.Chosen
      && d.deltas == (if s.Fragment? then g.deltas + [s.delta] else g.deltas)
      && d.meter.selected == if s.Picked? then Some((s.provider, s.model)) else g.meter.selected
  {
    match s
    case Picked(provider, model) => SelectOk(g, provider, model);
    case Fragment(delta) => EmitOk(g, delta, time);
  }

  /** The generation that saw what a job's observers saw, before it ends. */
  function Observed(leased: bool, seen: seq<Seen>, times: seq<nat>): Gen
    requires |times| == |seen|
  {
    Drive(Begin(NewGen(leased)), seen, times)
  }

  lemma ObservedOk(leased: bool, seen: seq<Seen>, times: seq<nat>)
    requires |times| == |seen| && Orderly(seen)
    ensures var g := Observed(leased, seen, times);
      && GenOk(g) && g.leased == leased && g.step in {GenStep.Started, GenStep.Chosen} && ChunksOf(g.made) == DeltasIn(seen)
      && g.meter.selected == PickedIn(seen)
  {
    NewGenOk(leased);
    BeginOk(NewGen(leased));
    DriveOk(Begin(NewGen(leased)), seen, times);
  }

  lemma FinishedOk(g: Gen, tokens: Option<nat>, kind: TerminalKind)
    requires GenOk(g) && g.step in {GenStep.Started, GenStep.Chosen} && (kind == InputRequestFrame ==> g.leased)
    ensures var f := WireTrace.Finish(g, tokens, kind);
      && GenOk(f) && f.step == Ended && ChunksOf(f.made) == ChunksOf(g.made)
      && f.made != [] && f.made[|f.made| - 1] == Terminal(kind)
  {
    FinishOk(g, tokens, kind);
  }

  /** What an execution puts on the wire, when its callbacks come at the given times. An abandoned one
      ends without finishing its generation. */
  function TraceOf(codec: Codec, job: Job, e: Execution, times: seq<nat>): Gen
    requires |times| == |e.seen|
  {
    var g := Observed(job.leaseId.Some?, e.seen, times);
    match e.result
    case None => g
    case Some(result) => WireTrace.Finish(g, FinalTokens(g, result), KindOf(codec, result))
  }

  ghost predicate Unfinished(frames: seq<Frame>) {
    forall f | f in frames :: !f.Terminal?
  }

  /** A trace that is not closed holds no terminal frame. */
  lemma OpenIsUnfinished(g: Gen)
    requires GenOk(g) && g.step != Ended
    ensures Unfinished(g.made)
  {
    forall i | 0 <= i < |g.made|
      ensures !g.made[i].Terminal?
    {
      ReadAt(g.leased, g.made, i);
      ReadMonotone(g.leased, g.made, i + 1);
      assert g.made[..|g.made|] == g.made;
    }
  }

  /** A trace follows the wire protocol and carries the deltas observed; a result closes it. */
  ghost predicate TraceOk(codec: Codec, e: Execution, g: Gen) {
    && GenOk(g) && ChunksOf(g.made) == DeltasIn(e.seen) && (g.step == Ended <==> e.result.Some?)
    && (e.result.None? ==> Unfinished(g.made))
    && (e.result.Some? ==> g.made != [] && g.made[|g.made| - 1] == Terminal(KindOf(codec, e.result.value)))
  }

  lemma OrderlyTrace(codec: Codec, job: Job, e: Execution, times: seq<nat>)
    requires |times| == |e.seen| && Orderly(e.seen) && (e.result.Some? ==> e.result.value.leaseId == job.leaseId)
    ensures TraceOk(codec, e, TraceOf(codec, job, e, times))
  {
    var g := Observed(job.leaseId.Some?, e.seen, times);
    ObservedOk(job.leaseId.Some?, e.seen, times);
    if e.result.Some? {
      FinishedOk(g, FinalTokens(g, e.result.value), KindOf(codec, e.result.value));
    } else {
      OpenIsUnfinished(g);
    }
  }

  /** An execution's callbacks and result make a trace that follows the wire protocol: its chunks are
      the deltas observed, in order. With a result it ends with one terminal frame, which asks a
      question exactly when the job succeeded under a lease with a call of the reserved function; an
      abandoned execution leaves no terminal frame at all. */
  lemma ExecutionTrace(site: Site, codec: Codec, decodes: Value -> bool, conforms: (Value, Value) -> bool, job: Job,
                       reply: Reply, e: Execution, times: seq<nat>)
    requires Follows(site, codec, decodes, conforms, job, reply, e) && |times| == |e.seen|
    ensures TraceOk(codec, e, TraceOf(codec, job, e, times))
    ensures e.result.Some? ==>
              (KindOf(codec, e.result.value) == InputRequestFrame
               <==> e.Succeeds() && job.leaseId.Some? && CallsReserved(codec, decodes, conforms, job, reply, e))
  {
    SeenDeltas(site, codec, decodes, conforms, job, reply, e);
    ResultAndRecord(site, codec, decodes, conforms, job, reply, e);
    OrderlyTrace(codec, job, e, times);
    if e.result.Some? {
      AsksIff(site, codec, decodes, conforms, job, reply, e);
    }
  }

  /** The last progress frame of a leased job with a result comes just before the terminal frame. It names
      the selected backend, and carries the output tokens the answer reported, or else the number of deltas
      observed, if there were any. */
  lemma FinalReport(codec: Codec, job: Job, e: Execution, times: seq<nat>)
    requires |times| == |e.seen| && Orderly(e.seen) && e.result.Some? && job.leaseId.Some?
    ensures var made, n := TraceOf(codec, job, e, times).made, |DeltasIn(e.seen)|;
      && |made| >= 2 && made[|made| - 2].ProgressFrame?
      && var r, usage := made[|made| - 2].report, e.result.value.usage;
      && r.phase == Finalizing && r.selected == PickedIn(e.seen)
      && r.outputTokens == (if usage.Some? && usage.value.tokens.outputTokens.Some? then usage.value.tokens.outputTokens
                            else if n > 0 then Some(n) else None)
  {
    ObservedOk(job.leaseId.Some?, e.seen, times);
  }

  /** The delivered answer calls the reserved function. */
  ghost predicate CallsReserved(codec: Codec, decodes: Value -> bool, conforms: (Value, Value) -> bool, job: Job,
                                reply: Reply, e: Execution) {
    var plan := PlanFor(decodes, job, e.route, e.outcome);
    && plan.Go?
    && var verdict := VerdictOf(codec, conforms, plan.tools, plan.schema, reply.result);
    && verdict.Deliver? && verdict.response.toolCalls.Some?
    && exists c | c in verdict.response.toolCalls.value :: c.name == CONTEXT_REQUEST_TOOL
  }

  lemma AsksIff(site: Site, codec: Codec, decodes: Value -> bool, conforms: (Value, Value) -> bool, job: Job,
                reply: Reply, e: Execution)
    requires Follows(site, codec, decodes, conforms, job, reply, e) && e.result.Some?
    ensures KindOf(codec, e.result.value) == InputRequestFrame
       <==> e.Succeeds() && job.leaseId.Some? && CallsReserved(codec, decodes, conforms, job, reply, e)
  {
    var plan, result := PlanFor(decodes, job, e.route, e.outcome), e.result.value;
    if e.Succeeds() && job.leaseId.Some? {
      var resp := VerdictOf(codec, conforms, plan.tools, plan.schema, reply.result).response;
      GatewayAnswerPausesIff(codec, result, "ir-" + result.jobId, resp.content, resp.toolCalls);
    } else {
      PausesIff(codec, result, "ir-" + result.jobId);
    }
  }
}
