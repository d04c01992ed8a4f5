/** Execution of a leased job (gateway.rs, `execute_observed`): routing, reservation, the adapter
    call, tool-call recovery, structured output, and what the observers see on the way. */
module Gateway {
  import opened Text
  import opened Json
  import opened Jobs
  import opened Privacy
  import opened Routing
  import opened ToolMarkup
  import opened LineFraming
  import Limits

  datatype PayloadError = BadMessages | UnsupportedFormat | NoDefinition | NotStrict | NoSchema

  datatype Why =
    | Unroutable(refusal: Refusal)
    | BadPayload(payload: PayloadError)
    | Limited(outcome: Limits.Outcome)
    | BadMarkup(markup: MarkupError)
    | InvalidOutput
    | ProviderFailed(error: ProviderError)

  // ---- the request ---------------------------------------------------------------------

  datatype Request = Request(tools: Option<Value>, format: Option<Value>)

  function NonNull(v: Value): Option<Value> {
    if v.Null? then None else Some(v)
  }

  /** `decodes` tells which values are a list of messages. */
  function ParseChat(decodes: Value -> bool, payload: Value): Option<Request> {
    if !decodes(payload.At("messages")) then None
    else Some(Request(NonNull(payload.At("tools")), NonNull(payload.At("response_format"))))
  }

  datatype Checked<+T> = Good(value: T) | Bad(why: PayloadError)

  function StrictSchema(format: Option<Value>): Checked<Option<Value>> {
    if format.None? then Good(None)
    else if format.value.At("type") != Str("json_schema") then Bad(UnsupportedFormat)
    else
      var definition := format.value.At("json_schema");
      if !definition.Obj? then Bad(NoDefinition)
      else if definition.At("strict") != Bool(true) then Bad(NotStrict)
      else match definition.Get("schema") case Some(schema) => Good(Some(schema)) case None => Bad(NoSchema)
  }

  // ---- after the adapter ---------------------------------------------------------------

  /** An abandoned call never returns: its task was aborted, or it panicked, and the execution is
      dropped where it waits. */
  datatype AdapterResult = Answered(response: ChatResponse) | Refuses(error: ProviderError) | Abandoned

  datatype ProviderError = LineOverLimit | ContentOverLimit | Reported(message: string)

  /** What the adapter did: the deltas it handed to its sink, and how it ended. */
  datatype Reply = Reply(emitted: seq<Delta>, result: AdapterResult)

  const FENCE := "```"
  const JSON_FENCE := "```json"

  function StripSuffix(s: string, suffix: string): Option<string> {
    if |suffix| <= |s| && s[|s| - |suffix|..] == suffix then Some(s[..|s| - |suffix|]) else None
  }

  /** The JSON text inside an answer, which may be fenced. */
  function JsonText(content: string): string {
    Unfenced(FENCE, JSON_FENCE, Trim(content))
  }

  function Unfenced(fence: string, marked: string, trimmed: string): string {
    var unfenced := StripPrefix(trimmed, fence);
    if unfenced.None? || StripSuffix(trimmed, fence).None? then trimmed
    else
      var inner := match StripPrefix(trimmed, marked) case Some(i) => i case None => unfenced.value;
      Trim(match StripSuffix(inner, fence) case Some(body) => body case None => inner)
  }

  /** The answer reprinted, if it is JSON that conforms to the schema. */
  function Validated(codec: Codec, conforms: (Value, Value) -> bool, content: string, schema: Value): Option<string> {
    Reprinted(codec, conforms, codec.parse(JsonText(content)), schema)
  }

  function Reprinted(codec: Codec, conforms: (Value, Value) -> bool, read: Option<Value>, schema: Value): Option<string> {
    if read.Some? && conforms(read.value, schema) then Some(codec.render(read.value)) else None
  }

  predicate Visible(s: string) {
    s != "" && !IsSpace(s[0]) && !IsSpace(s[|s| - 1])
  }

  lemma TextOfTrimmed(lead: string, body: string, trail: string)
    requires AllSpace(lead) && AllSpace(trail) && Visible(body)
    ensures JsonText(lead + body + trail) == Unfenced(FENCE, JSON_FENCE, body)
  {
    TrimPadded(lead, body, trail);
  }

  lemma UnfencedBy(fence: string, marked: string, body: string, inside: string, inner: string)
    requires StripPrefix(body, fence).Some? && StripSuffix(body, fence).Some? && StripSuffix(inside, fence) == Some(inner)
    requires StripPrefix(body, marked) == Some(inside) || (StripPrefix(body, marked).None? && StripPrefix(body, fence) == Some(inside))
    ensures Unfenced(fence, marked, body) == Trim(inner)
  {
  }

  lemma UnfenceMarked(fence: string, mark: string, inner: string)
    ensures Unfenced(fence, fence + mark, (fence + mark) + (inner + fence)) == Trim(inner)
  {
    var body := (fence + mark) + (inner + fence);
    Suffixed(inner, fence);
    SuffixedTwice(fence + mark, inner, fence);
    Prefixed(fence + mark, inner + fence);
    PrefixedTwice(fence, mark, inner + fence);
    UnfencedBy(fence, fence + mark, body, inner + fence, inner);
  }

  lemma UnfenceBare(fence: string, mark: string, inner: string)
    requires !(mark <= inner + fence)
    ensures Unfenced(fence, fence + mark, fence + (inner + fence)) == Trim(inner)
  {
    var body := fence + (inner + fence);
    Suffixed(inner, fence);
    SuffixedTwice(fence, inner, fence);
    Prefixed(fence, inner + fence);
    MarkedIff(fence, mark, inner + fence);
    UnfencedBy(fence, fence + mark, body, inner + fence, inner);
  }

  lemma Prefixed(prefix: string, s: string)
    ensures StripPrefix(prefix + s, prefix) == Some(s)
  {
  }

  lemma SuffixedTwice(a: string, b: string, suffix: string)
    ensures StripSuffix(a + (b + suffix), suffix).Some?
  {
  }

  lemma PrefixedTwice(a: string, b: string, s: string)
    ensures StripPrefix((a + b) + s, a).Some?
  {
  }

  lemma Suffixed(s: string, suffix: string)
    ensures StripSuffix(s + suffix, suffix) == Some(s)
  {
  }

  lemma MarkedIff(fence: string, mark: string, rest: string)
    ensures fence + mark <= fence + rest <==> mark <= rest
  {
    assert (fence + mark)[|fence|..] == mark && (fence + rest)[|fence|..] == rest;
    if fence + mark <= fence + rest {
      assert rest[..|mark|] == (fence + rest)[|fence|..|fence| + |mark|] == (fence + mark)[|fence|..];
    }
  }

  lemma UnfencePlain(fence: string, marked: string, body: string)
    requires !(fence <= body && |fence| <= |body| && body[|body| - |fence|..] == fence)
    ensures Unfenced(fence, marked, body) == body
  {
  }

  /** An answer that is not between fences is taken as it is, without the white space around it. */
  lemma PlainText(lead: string, body: string, trail: string)
    requires AllSpace(lead) && AllSpace(trail) && Visible(body)
    requires !("```" <= body && |body| >= 3 && body[|body| - 3..] == "```")
    ensures JsonText(lead + body + trail) == body
  {
    TextOfTrimmed(lead, body, trail);
    UnfencePlain(FENCE, JSON_FENCE, body);
  }

  lemma FenceIsVisible(fence: string, opening: string, inner: string)
    requires fence != "" && !IsSpace(fence[|fence| - 1]) && opening != "" && !IsSpace(opening[0])
    ensures Visible(opening + (inner + fence))
  {
  }

  lemma FencedWith(fence: string, mark: string, lead: string, marked: bool, inner: string, trail: string)
    requires AllSpace(lead) && AllSpace(trail) && (!marked ==> !(mark <= inner + fence))
    requires fence != "" && !IsSpace(fence[0]) && !IsSpace(fence[|fence| - 1])
    ensures var opening := if marked then fence + mark else fence;
      Unfenced(fence, fence + mark, Trim(lead + (opening + (inner + fence)) + trail)) == Trim(inner)
  {
    var opening := if marked then fence + mark else fence;
    FenceIsVisible(fence, opening, inner);
    TrimPadded(lead, opening + (inner + fence), trail);
    if marked {
      UnfenceMarked(fence, mark, inner);
    } else {
      UnfenceBare(fence, mark, inner);
    }
  }

  /** What stands between fences is taken without the white space around it, and the opening fence may
      be marked as JSON. */
  lemma FencedText(lead: string, marked: bool, inner: string, trail: string)
    requires AllSpace(lead) && AllSpace(trail) && (!marked ==> !("json" <= inner + "```"))
    ensures JsonText(lead + ((if marked then "```json" else "```") + (inner + "```")) + trail) == Trim(inner)
  {
    FencedWith(FENCE, "json", lead, marked, inner, trail);
    assert FENCE + "json" == JSON_FENCE;
  }

  datatype Verdict = Deliver(response: ChatResponse) | Fail(why: Why) | Dropped

  /** Tool calls hidden in the text are recovered when tools were offered and none came natively. */
  function Recovered(codec: Codec, tools: Option<Value>, resp: ChatResponse): Verdict {
    if resp.toolCalls.Some? || tools.None? then Deliver(resp)
    else match Normalize(codec, resp.content, tools.value)
      case Err(e) => Fail(BadMarkup(e))
      case Ok(None) => Deliver(resp)
      case Ok(Some(found)) => Deliver(resp.(content := found.0, toolCalls := Some(found.1)))
  }

  function Structured(codec: Codec, conforms: (Value, Value) -> bool, schema: Option<Value>, resp: ChatResponse): Verdict {
    if schema.None? then Deliver(resp)
    else match Validated(codec, conforms, resp.content, schema.value)
      case None => Fail(InvalidOutput)
      case Some(content) => Deliver(resp.(content := content))
  }

  function VerdictOf(codec: Codec, conforms: (Value, Value) -> bool, tools: Option<Value>, schema: Option<Value>,
                     result: AdapterResult): Verdict {
    match result
    case Abandoned => Dropped
    case Refuses(error) => Fail(ProviderFailed(error))
    case Answered(resp) =>
      var recovered := Recovered(codec, tools, resp);
      if recovered.Fail? then recovered else Structured(codec, conforms, schema, recovered.response)
  }

  method Conclude(codec: Codec, conforms: (Value, Value) -> bool, tools: Option<Value>, schema: Option<Value>,
                  answer: ChatResponse) returns (v: Verdict)
    ensures v == VerdictOf(codec, conforms, tools, schema, Answered(answer))
  {
    v := Recover(codec, tools, answer);
    if v.Deliver? && schema.Some? {
      v := Validate(codec, conforms, schema.value, v.response);
    }
  }

  method Validate(codec: Codec, conforms: (Value, Value) -> bool, schema: Value, answer: ChatResponse) returns (v: Verdict)
    ensures v == Structured(codec, conforms, Some(schema), answer)
  {
    var valid := Validated(codec, conforms, answer.content, schema);
    if valid.None? {
      return Fail(InvalidOutput);
    }
    v := Deliver(answer.(content := valid.value));
  }

  method Recover(codec: Codec, tools: Option<Value>, answer: ChatResponse) returns (v: Verdict)
    ensures v == Recovered(codec, tools, answer)
  {
    v := Deliver(answer);
    if answer.toolCalls.None? && tools.Some? {
      var found := NormalizeToolMarkup(codec, answer.content, tools.value);
      if found.Err? {
        return Fail(BadMarkup(found.error));
      }
      if found.value.Some? {
        v := Deliver(answer.(content := found.value.value.0, toolCalls := Some(found.value.value.1)));
      }
    }
  }

  // ---- what is decided before the adapter runs -----------------------------------------

  datatype Plan = Stop(status: JobStatus, why: Why) | Go(tools: Option<Value>, schema: Option<Value>)

  /** `outcome` is the limiter's answer, which only matters for a routed job with a readable payload. */
  function PlanFor(decodes: Value -> bool, job: Job, route: Route, outcome: Limits.Outcome): Plan {
    if route.Refused? then Stop(Rejected, Unroutable(route.reason))
    else match ParseChat(decodes, job.payload)
      case None => Stop(Failed, BadPayload(BadMessages))
      case Some(req) =>
        if outcome != Limits.Reserved then Stop(Rejected, Limited(outcome))
        else match StrictSchema(req.format)
          case Bad(e) => Stop(Failed, BadPayload(e))
          case Good(schema) => Go(req.tools, schema)
  }

  // ---- what a payload asks for, in its own terms ----------------------------------------

  /** A response format that asks for a strict schema. */
  predicate AsksSchema(format: Value, schema: Value) {
    && format.At("type") == Str("json_schema") && format.At("json_schema").Obj?
    && format.At("json_schema").At("strict") == Bool(true)
    && "schema" in format.At("json_schema").fields && format.At("json_schema").fields["schema"] == schema
  }

  /** No format, or one that asks for a strict schema. */
  ghost predicate FormatOk(format: Value) {
    format.Null? || exists schema :: AsksSchema(format, schema)
  }

  /** The job has a backend, its messages are readable, it got its reservation, and its format is one
      the gateway serves. */
  ghost predicate Admits(decodes: Value -> bool, job: Job, route: Route, outcome: Limits.Outcome) {
    && route.Chosen? && decodes(job.payload.At("messages")) && outcome == Limits.Reserved
    && FormatOk(job.payload.At("response_format"))
  }

  /** What is wrong with a format, in the order it is looked at. */
  function FormatError(format: Value): PayloadError {
    if format.At("type") != Str("json_schema") then UnsupportedFormat
    else if !format.At("json_schema").Obj? then NoDefinition
    else if format.At("json_schema").At("strict") != Bool(true) then NotStrict
    else NoSchema
  }

  lemma SchemaIff(format: Value, schema: Value)
    requires !format.Null?
    ensures StrictSchema(Some(format)) == Good(Some(schema)) <==> AsksSchema(format, schema)
    ensures StrictSchema(Some(format)) != Good(None)
    ensures StrictSchema(Some(format)).Bad? <==> !FormatOk(format)
    ensures StrictSchema(Some(format)).Bad? ==> StrictSchema(Some(format)).why == FormatError(format)
  {
    var found := StrictSchema(Some(format));
    if found.Good? {
      assert AsksSchema(format, found.value.value);
    }
  }

  /** The plan of a job: it runs with the payload's tools and the schema asked for, without a schema
      exactly when no format is given, and it stops when it has no backend, its messages are
      unreadable, it got no reservation or its format is not one the gateway serves. */
  lemma PlanIff(decodes: Value -> bool, job: Job, route: Route, outcome: Limits.Outcome)
    ensures var plan, format, tools := PlanFor(decodes, job, route, outcome), job.payload.At("response_format"), job.payload.At("tools");
      && (plan.Go? <==> Admits(decodes, job, route, outcome))
      && (plan.Go? ==>
            && plan.tools == (if tools.Null? then None else Some(tools))
            && (plan.schema == None <==> format.Null?)
            && (forall schema :: plan.schema == Some(schema) <==> AsksSchema(format, schema)))
  {
    var format := job.payload.At("response_format");
    if !format.Null? {
      forall schema
        ensures StrictSchema(Some(format)) == Good(Some(schema)) <==> AsksSchema(format, schema)
      {
        SchemaIff(format, schema);
      }
      SchemaIff(format, Null);
    } else {
      assert forall schema :: !AsksSchema(format, schema);
    }
  }

  /** Why a job stops before its adapter runs: no backend or no reservation rejects it, a payload that
      cannot be served fails it. */
  lemma StopIs(decodes: Value -> bool, job: Job, route: Route, outcome: Limits.Outcome)
    requires !Admits(decodes, job, route, outcome)
    ensures PlanFor(decodes, job, route, outcome) ==
      if route.Refused? then Stop(Rejected, Unroutable(route.reason))
      else if !decodes(job.payload.At("messages")) then Stop(Failed, BadPayload(BadMessages))
      else if outcome != Limits.Reserved then Stop(Rejected, Limited(outcome))
      else Stop(Failed, BadPayload(FormatError(job.payload.At("response_format"))))
  {
    if !job.payload.At("response_format").Null? {
      SchemaIff(job.payload.At("response_format"), Null);
    }
  }

  /** A job whose deltas are withheld: it offers tools or asks for a format. */
  predicate AsksToWait(job: Job) {
    !job.payload.At("tools").Null? || !job.payload.At("response_format").Null?
  }

  lemma BuffersIff(decodes: Value -> bool, job: Job, route: Route, outcome: Limits.Outcome)
    requires PlanFor(decodes, job, route, outcome).Go?
    ensures MustBuffer(PlanFor(decodes, job, route, outcome)) <==> AsksToWait(job)
  {
    PlanIff(decodes, job, route, outcome);
  }

  /** With tools or a schema the adapter's deltas are withheld. */
  predicate MustBuffer(plan: Plan) {
    plan.Go? && (plan.schema.Some? || plan.tools.Some?)
  }

  function Stopped(job: Job, status: JobStatus, why: Why): JobResult<Why> {
    JobResult(job.jobId, job.leaseId, status, Some(why), None, None)
  }

  function Delivered(job: Job, entry: Entry, resp: ChatResponse): JobResult<Why> {
    JobResult(job.jobId, job.leaseId, Succeeded, None, Some(OutputOf(resp.content, resp.toolCalls)),
              Some(ResultUsage(entry.provider, entry.model, resp.usage)))
  }

  // ---- observers -----------------------------------------------------------------------

  /** What the callbacks of a job see. */
  datatype Seen = Picked(provider: string, model: string) | Fragment(delta: Delta)

  function Fragments(deltas: seq<Delta>): (r: seq<Seen>)
    ensures |r| == |deltas| && forall i | 0 <= i < |deltas| :: r[i] == Fragment(deltas[i])
  {
    seq(|deltas|, i requires 0 <= i < |deltas| => Fragment(deltas[i]))
  }

  function AddSeen(deltas: seq<Delta>, s: Seen): seq<Delta> {
    if s.Fragment? then deltas + [s.delta] else deltas
  }

  function DeltasIn(seen: seq<Seen>): seq<Delta> {
    Fold(AddSeen, [], seen)
  }

  lemma DeltasInLast(seen: seq<Seen>)
    requires seen != []
    ensures DeltasIn(seen) == AddSeen(DeltasIn(seen[..|seen| - 1]), seen[|seen| - 1])
  {
  }

  /** At most one selection, and it comes before every fragment. */
  predicate Orderly(seen: seq<Seen>) {
    seen == [] || (seen[0].Picked? && forall i | 0 < i < |seen| :: seen[i].Fragment?)
  }

  lemma {:induction false} FragmentsAdd(before: seq<Delta>, deltas: seq<Delta>)
    ensures Fold(AddSeen, before, Fragments(deltas)) == before + deltas
  {
    if deltas == [] {
      assert before + deltas == before;
    } else {
      var rest, last := deltas[..|deltas| - 1], deltas[|deltas| - 1];
      FragmentsAdd(before, rest);
      assert Fragments(deltas) == Fragments(rest) + [Fragment(last)];
      FoldSnoc(AddSeen, before, Fragments(rest), Fragment(last));
      assert before + deltas == (before + rest) + [last];
    }
  }

  lemma DeltasInAppend(seen: seq<Seen>, deltas: seq<Delta>)
    ensures DeltasIn(seen + Fragments(deltas)) == DeltasIn(seen) + deltas
  {
    FoldAppend(AddSeen, [], seen, Fragments(deltas));
    FragmentsAdd(DeltasIn(seen), deltas);
  }

  // ---- the other dispatches ------------------------------------------------------------

  /** While the adapter runs, other dispatches reserve and drop; `held` counts the provider slots
      they hold, and a slot is only dropped by who holds it. */
  datatype Other = OtherAsks(external: bool, now: nat) | OtherDrops

  datatype Shared = Shared(state: Limits.State, held: nat)

  function OtherStep(caps: Limits.Caps, s: Shared, op: Other): Shared {
    match op
    case OtherAsks(external, now) =>
      var granted := Limits.OutcomeOf(caps, s.state, external, now) == Limits.Reserved;
      Shared(Limits.Reserve(caps, s.state, external, now), if granted && external then s.held + 1 else s.held)
    case OtherDrops => if s.held == 0 then s else Shared(Limits.Release(s.state, true), s.held - 1)
  }

  function OtherSteps(caps: Limits.Caps, s: Shared, ops: seq<Other>): Shared {
    if ops == [] then s else OtherStep(caps, OtherSteps(caps, s, ops[..|ops| - 1]), ops[|ops| - 1])
  }

  lemma {:induction false} OthersKeepMine(caps: Limits.Caps, s: Shared, ops: seq<Other>, mine: nat)
    requires s.state.inflight == s.held + mine
    ensures var t := OtherSteps(caps, s, ops); t.state.inflight == t.held + mine
  {
    if ops != [] {
      OthersKeepMine(caps, s, ops[..|ops| - 1], mine);
    }
  }

  /** The await: the shared guard changes under the adapter call. */
  method Meanwhile(guard: Limits.LimitGuard, held: nat, ops: seq<Other>) returns (now: nat)
    requires guard.Valid()
    modifies guard
    ensures guard.Valid()
    ensures Shared(guard.Current(), now) == OtherSteps(guard.caps, Shared(old(guard.Current()), held), ops)
  {
    now := held;
    for k := 0 to |ops|
      invariant guard.Valid()
      invariant Shared(guard.Current(), now) == OtherSteps(guard.caps, Shared(old(guard.Current()), held), ops[..k])
    {
      assert ops[..k + 1][..k] == ops[..k];
      match ops[k] {
        case OtherAsks(external, time) =>
          var r := guard.TryReserve(external, time);
          if r == Limits.Reserved && external {
            now := now + 1;
          }
        case OtherDrops =>
          if now > 0 {
            guard.Drop(true);
            now := now - 1;
          }
      }
    }
    assert ops[..|ops|] == ops;
  }

  // ---- the execution -------------------------------------------------------------------

  /** The deltas a job's observer receives: as they come, or one with the whole answer. */
  function Forwarded(plan: Plan, verdict: Verdict, emitted: seq<Delta>): seq<Delta> {
    if !MustBuffer(plan) then emitted
    else if verdict.Deliver? && verdict.response.content != "" then [Delta(verdict.response.content, false)]
    else []
  }

  /** What is made of the adapter's reply. */
  method Settle(codec: Codec, conforms: (Value, Value) -> bool, tools: Option<Value>, schema: Option<Value>, reply: Reply)
    returns (verdict: Verdict, deltas: seq<Delta>)
    ensures verdict == VerdictOf(codec, conforms, tools, schema, reply.result)
    ensures deltas == Forwarded(Go(tools, schema), verdict, reply.emitted)
  {
    var mustBuffer := schema.Some? || tools.Some?;
    deltas := if mustBuffer then [] else reply.emitted;
    match reply.result {
      case Abandoned => verdict := Dropped;
      case Refuses(error) => verdict := Fail(ProviderFailed(error));
      case Answered(answer) =>
        verdict := Conclude(codec, conforms, tools, schema, answer);
        if verdict.Deliver? && mustBuffer && verdict.response.content != "" {
          deltas := deltas + [Delta(verdict.response.content, false)];
        }
    }
  }

  /** The call: the reservation is held while the adapter runs, and its destructor gives it back on
      every way out, also when the call is abandoned and nobody waits for a result. */
  method Dispatch(codec: Codec, conforms: (Value, Value) -> bool, guard: Limits.LimitGuard, external: bool,
                  tools: Option<Value>, schema: Option<Value>, held: nat, reply: Reply, others: seq<Other>)
    returns (verdict: Verdict, deltas: seq<Delta>, after: nat)
    requires guard.Valid() && guard.inflight == held + if external then 1 else 0
    modifies guard
    ensures guard.Valid() && guard.inflight == after
    ensures after == OtherSteps(guard.caps, Shared(old(guard.Current()), held), others).held
    ensures verdict == VerdictOf(codec, conforms, tools, schema, reply.result)
    ensures deltas == Forwarded(Go(tools, schema), verdict, reply.emitted)
  {
    OthersKeepMine(guard.caps, Shared(guard.Current(), held), others, if external then 1 else 0);
    after := Meanwhile(guard, held, others);
    verdict, deltas := Settle(codec, conforms, tools, schema, reply);
    guard.Drop(external);
  }

  /** How an execution went: the route taken, the limiter's answer, the result unless it was
      abandoned, what the observers saw, the usage record written, if any, and the slots others hold
      at the end. */
  datatype Execution = Execution(route: Route, outcome: Limits.Outcome, result: Option<JobResult<Why>>, seen: seq<Seen>,
                                 recorded: Option<bool>, held: nat)
  {
    predicate Succeeds() {
      result.Some? && result.value.status == Succeeded
    }
  }

  /** The limiter is only asked for a routed job whose payload is readable. */
  predicate ReachesLimiter(decodes: Value -> bool, job: Job, route: Route) {
    route.Chosen? && ParseChat(decodes, job.payload).Some?
  }

  function Selection(site: Site, route: Route): seq<Seen> {
    if route.Chosen? && route.position < |site.catalog|
    then [Picked(site.catalog[route.position].provider, site.catalog[route.position].model)] else []
  }

  lemma SelectionHasNoDeltas(site: Site, route: Route)
    ensures DeltasIn(Selection(site, route)) == []
  {
    var picked := Selection(site, route);
    if picked != [] {
      FoldOne(AddSeen, [], picked);
    }
  }

  /** What a verdict on the adapter's reply is reported as: a result and a usage record. */
  predicate Reports(job: Job, entry: Entry, refused: bool, verdict: Verdict,
                    result: Option<JobResult<Why>>, recorded: Option<bool>) {
    match verdict
    case Dropped => result == None && recorded == None
    case Fail(why) => result == Some(Stopped(job, Failed, why)) && recorded == if refused then Some(false) else None
    case Deliver(resp) => result == Some(Delivered(job, entry, resp)) && recorded == Some(true)
  }

  method Report(job: Job, entry: Entry, refused: bool, verdict: Verdict)
    returns (result: Option<JobResult<Why>>, recorded: Option<bool>)
    ensures Reports(job, entry, refused, verdict, result, recorded)
  {
    match verdict {
      case Dropped => result, recorded := None, None;
      case Fail(why) => result, recorded := Some(Stopped(job, Failed, why)), if refused then Some(false) else None;
      case Deliver(resp) => result, recorded := Some(Delivered(job, entry, resp)), Some(true);
    }
  }

  /** The end of a dispatch: the result, what the observers saw and the record. */
  predicate Ends(site: Site, codec: Codec, conforms: (Value, Value) -> bool, job: Job, plan: Plan, reply: Reply, e: Execution)
    requires plan.Go?
  {
    var verdict := VerdictOf(codec, conforms, plan.tools, plan.schema, reply.result);
    && e.route.Chosen? && e.route.position < |site.catalog|
    && e.seen == Selection(site, e.route) + Fragments(Forwarded(plan, verdict, reply.emitted))
    && Reports(job, site.catalog[e.route.position], reply.result.Refuses?, verdict, e.result, e.recorded)
  }

  /** What a route, the limiter's answer and the adapter's reply lead to. */
  predicate Follows(site: Site, codec: Codec, decodes: Value -> bool, conforms: (Value, Value) -> bool, job: Job,
                    reply: Reply, e: Execution) {
    var plan := PlanFor(decodes, job, e.route, e.outcome);
    if e.route.Chosen? && e.route.position >= |site.catalog| then false
    else if plan.Go? then Ends(site, codec, conforms, job, plan, reply, e)
    else
      && e.result == Some(Stopped(job, plan.status, plan.why)) && e.recorded == None
      && e.seen == if ReachesLimiter(decodes, job, e.route) then Selection(site, e.route) else []
  }

  /** The part of an execution that has its reservation. */
  method Run(site: Site, codec: Codec, conforms: (Value, Value) -> bool, guard: Limits.LimitGuard, job: Job, route: Route,
             tools: Option<Value>, schema: Option<Value>, held: nat, reply: Reply, others: seq<Other>)
    returns (e: Execution)
    requires route.Chosen? && route.position < |site.catalog|
    requires guard.Valid() && guard.inflight == held + if External(site, route.position) then 1 else 0
    modifies guard
    ensures guard.Valid() && guard.inflight == e.held
    ensures e.held == OtherSteps(guard.caps, Shared(old(guard.Current()), held), others).held
    ensures e.route == route && e.outcome == Limits.Reserved
    ensures Ends(site, codec, conforms, job, Go(tools, schema), reply, e)
  {
    var entry := site.catalog[route.position];
    var verdict, deltas, after := Dispatch(codec, conforms, guard, External(site, route.position), tools, schema, held, reply, others);
    var result, recorded := Report(job, entry, reply.result.Refuses?, verdict);
    e := Execution(route, Limits.Reserved, result, [Picked(entry.provider, entry.model)] + Fragments(deltas), recorded, after);
  }

  method ExecuteObserved(site: Site, codec: Codec, decodes: Value -> bool, conforms: (Value, Value) -> bool,
                         guard: Limits.LimitGuard, job: Job, now: nat, held: nat, reply: Reply, others: seq<Other>)
    returns (e: Execution)
    requires guard.Valid() && guard.inflight == held
    modifies guard
    ensures guard.Valid() && guard.inflight == e.held
    ensures IsRoute(site, job, e.route) && Follows(site, codec, decodes, conforms, job, reply, e)
    ensures ReachesLimiter(decodes, job, e.route) ==>
              e.outcome == Limits.OutcomeOf(guard.caps, old(guard.Current()), External(site, e.route.position), now)
    ensures PlanFor(decodes, job, e.route, e.outcome).Stop? ==> e.held == held
    ensures PlanFor(decodes, job, e.route, e.outcome).Go? ==>
              var reserved := Limits.Reserve(guard.caps, old(guard.Current()), External(site, e.route.position), now);
              e.held == OtherSteps(guard.caps, Shared(reserved, held), others).held
    ensures !ReachesLimiter(decodes, job, e.route) ==> guard.Current() == old(guard.Current())
  {
    var route := SelectBackend(site, job);
    if route.Refused? {
      return Execution(route, Limits.Reserved, Some(Stopped(job, Rejected, Unroutable(route.reason))), [], None, held);
    }
    var parsed := ParseChat(decodes, job.payload);
    if parsed.None? {
      return Execution(route, Limits.Reserved, Some(Stopped(job, Failed, BadPayload(BadMessages))), [], None, held);
    }
    var entry := site.catalog[route.position];
    var seen := [Picked(entry.provider, entry.model)];
    var external := External(site, route.position);
    var outcome := guard.TryReserve(external, now);
    if outcome != Limits.Reserved {
      return Execution(route, outcome, Some(Stopped(job, Rejected, Limited(outcome))), seen, None, held);
    }
    var schema := StrictSchema(parsed.value.format);
    if schema.Bad? {
      guard.Drop(external);
      return Execution(route, outcome, Some(Stopped(job, Failed, BadPayload(schema.why))), seen, None, held);
    }
    e := Run(site, codec, conforms, guard, job, route, parsed.value.tools, schema.value, held, reply, others);
  }
}
