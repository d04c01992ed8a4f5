/** What one lease generation puts on the wire, in the order its job makes it
    (coordinator_client.rs, the spawned job task). */
module WireTrace {
  import opened Text
  import opened Json
  import opened Jobs
  import opened Progress

  datatype TerminalKind = ResultFrame | InputRequestFrame

  datatype Frame =
    | ProgressFrame(report: Report)
    | Chunk(seqNo: nat, delta: Delta)
    | Terminal(kind: TerminalKind)

  datatype GenStep = Idle | Started | Chosen | Ended

  /** One generation: its meter, the times and contents of its deltas, and the frames it made. */
  datatype Gen = Gen(leased: bool, step: GenStep, meter: Meter, times: seq<nat>, deltas: seq<Delta>, made: seq<Frame>)

  function NewGen(leased: bool): Gen {
    Gen(leased, Idle, FRESH, [], [], [])
  }

  /** A progress frame, which only a leased generation makes. */
  function WithReport(g: Gen, phase: Phase, outputTokens: Option<nat>): Gen {
    if g.leased then g.(meter := Sent(g.meter), made := g.made + [ProgressFrame(ReportOf(g.meter, phase, outputTokens))])
    else g
  }

  function Begin(g: Gen): Gen {
    WithReport(g, LoadingModel, None).(step := Started)
  }

  function Select(g: Gen, provider: string, model: string): Gen {
    WithReport(g.(meter := g.meter.(selected := Some((provider, model)))), Prefill, None).(step := Chosen)
  }

  function Wrap(reports: seq<Report>): seq<Frame> {
    if reports == [] then [] else [ProgressFrame(reports[0])] + Wrap(reports[1..])
  }

  /** The meter after one more delta of a generation, and the frame it makes, if any. */
  function Metered(g: Gen, nowMs: nat): (Meter, seq<Report>) {
    if g.leased then Noted(g.meter, nowMs) else (g.meter, [])
  }

  /** One streamed fragment: perhaps a progress frame, then the chunk. */
  function Emit(g: Gen, delta: Delta, nowMs: nat): Gen {
    g.(meter := Metered(g, nowMs).0, times := g.times + [nowMs], deltas := g.deltas + [delta],
       made := g.made + Wrap(Metered(g, nowMs).1) + [Chunk(|g.deltas|, delta)])
  }

  /** The count a finalizing frame carries: the reported one, or the deltas counted. */
  function FinalTokens<Why>(g: Gen, result: JobResult<Why>): Option<nat> {
    var reported := match result.usage case Some(u) => u.tokens.outputTokens case None => None;
    if reported.Some? then reported else if g.meter.tokens > 0 then Some(g.meter.tokens) else None
  }

  function KindOf<Why>(codec: Codec, result: JobResult<Why>): (kind: TerminalKind)
    ensures kind == InputRequestFrame ==> result.leaseId.Some?
  {
    if FromResult(codec, result, "ir-" + result.jobId).Some? then InputRequestFrame else ResultFrame
  }

  /** The gateway returned: a finalizing frame, then the result or the question it asks. */
  function Finish(g: Gen, tokens: Option<nat>, kind: TerminalKind): Gen {
    var final := WithReport(g, Finalizing, tokens);
    final.(step := Ended, made := final.made + [Terminal(kind)])
  }

  // ---- the protocol --------------------------------------------------------------------

  datatype Place = AtStart | Loaded | Streaming | Finalized | Closed

  /** How far a trace has got, and how many progress and chunk frames it holds. */
  datatype Wire = Wire(place: Place, progress: nat, chunks: nat)

  /** The frames a generation may put next. Progress and chunk numbers count from 0 without gaps,
      and only a leased generation asks a question. */
  function Read(leased: bool, w: Wire, f: Frame): Option<Wire> {
    match f
    case ProgressFrame(r) =>
      if !leased || r.seqNo != w.progress then None
      else
        var next := w.(progress := w.progress + 1);
        (match r.phase
         case LoadingModel => if w.place == AtStart then Some(next.(place := Loaded)) else None
         case Prefill => if w.place == Loaded then Some(next.(place := Streaming)) else None
         case Generating => if w.place == Streaming then Some(next) else None
         case Finalizing => if w.place in {Loaded, Streaming} then Some(next.(place := Finalized)) else None)
    case Chunk(n, _) => if w.place == Streaming && n == w.chunks then Some(w.(chunks := w.chunks + 1)) else None
    case Terminal(kind) =>
      if w.place == (if leased then Finalized else Streaming) && (leased || kind == ResultFrame)
      then Some(w.(place := Closed)) else None
  }

  function ReadAll(leased: bool, frames: seq<Frame>): Option<Wire> {
    if frames == [] then Some(Wire(if leased then AtStart else Streaming, 0, 0))
    else
      match ReadAll(leased, frames[..|frames| - 1])
      case None => None
      case Some(w) => Read(leased, w, frames[|frames| - 1])
  }

  function PlaceOf(leased: bool, step: GenStep): Place {
    match step
    case Idle => if leased then AtStart else Streaming
    case Started => if leased then Loaded else Streaming
    case Chosen => Streaming
    case Ended => Closed
  }

  /** The fragments carried by the chunk frames. */
  function ChunksOf(frames: seq<Frame>): seq<Delta> {
    if frames == [] then []
    else
      var before, last := ChunksOf(frames[..|frames| - 1]), frames[|frames| - 1];
      if last.Chunk? then before + [last.delta] else before
  }

  function GeneratingIn(frames: seq<Frame>): nat {
    if frames == [] then 0
    else
      var last := frames[|frames| - 1];
      GeneratingIn(frames[..|frames| - 1]) + if last.ProgressFrame? && last.report.phase == Generating then 1 else 0
  }

  /** The meter's counts and times are those the deltas alone give. */
  predicate Counted(meter: Meter, times: seq<nat>) {
    var m := Deltas(times).0;
    meter.tokens == m.tokens && meter.lastTokens == m.lastTokens && meter.lastMs == m.lastMs
  }

  /** What a progress frame says when `chunks` chunk frames are before it: loading knows no backend,
      and generating counts the deltas with the one that is about to be sent. */
  predicate Says(r: Report, chunks: nat, selected: Option<(string, string)>) {
    match r.phase
    case LoadingModel => r.selected.None? && r.outputTokens.None?
    case Prefill => r.selected == selected && r.outputTokens.None?
    case Generating => r.selected == selected && r.outputTokens == Some(chunks + 1)
    case Finalizing => r.selected == selected
  }

  predicate Told(frames: seq<Frame>, selected: Option<(string, string)>) {
    frames == [] ||
    (var before, last := frames[..|frames| - 1], frames[|frames| - 1];
     Told(before, selected) && (last.ProgressFrame? ==> Says(last.report, |ChunksOf(before)|, selected)))
  }

  /** The progress frames say what has happened so far. */
  predicate Telling(g: Gen) {
    && Told(g.made, g.meter.selected) && (g.leased ==> g.meter.tokens == |g.deltas|)
    && (g.step == Idle ==> g.made == [] && g.meter.selected.None?)
    && (g.step == Started ==> g.made == if g.leased then [ProgressFrame(Report(0, LoadingModel, None, None))] else [])
  }

  /** The frames made follow the protocol, carry exactly the deltas, and the meter is where the
      deltas alone would have put it. */
  ghost predicate GenOk(g: Gen) {
    FramesOk(g) && Telling(g) && (g.leased ==> Counted(g.meter, g.times) && GeneratingIn(g.made) == |Deltas(g.times).1|)
  }

  predicate FramesOk(g: Gen) {
    && ReadAll(g.leased, g.made) == Some(Wire(PlaceOf(g.leased, g.step), g.meter.seqNo, |g.deltas|))
    && ChunksOf(g.made) == g.deltas && |g.times| == |g.deltas|
    && (g.step in {Idle, Started} ==> g.deltas == [])
  }

  lemma ReadSnoc(leased: bool, frames: seq<Frame>, f: Frame)
    ensures ReadAll(leased, frames + [f])
         == (match ReadAll(leased, frames) case None => None case Some(w) => Read(leased, w, f))
    ensures ChunksOf(frames + [f]) == if f.Chunk? then ChunksOf(frames) + [f.delta] else ChunksOf(frames)
    ensures GeneratingIn(frames + [f])
         == GeneratingIn(frames) + if f.ProgressFrame? && f.report.phase == Generating then 1 else 0
  {
    assert (frames + [f])[..|frames|] == frames;
  }

  lemma ToldSnoc(frames: seq<Frame>, f: Frame, selected: Option<(string, string)>)
    ensures Told(frames + [f], selected)
       <==> Told(frames, selected) && (f.ProgressFrame? ==> Says(f.report, |ChunksOf(frames)|, selected))
  {
    assert (frames + [f])[..|frames|] == frames;
  }

  lemma NewGenOk(leased: bool)
    ensures GenOk(NewGen(leased))
  {
  }

  lemma BeginOk(g: Gen)
    requires GenOk(g) && g.step == Idle
    ensures GenOk(Begin(g))
  {
    ToldSnoc(g.made, ProgressFrame(ReportOf(g.meter, LoadingModel, None)), None);
    ReadSnoc(g.leased, g.made, ProgressFrame(ReportOf(g.meter, LoadingModel, None)));
  }

  lemma SelectOk(g: Gen, provider: string, model: string)
    requires GenOk(g) && g.step == Started
    ensures GenOk(Select(g, provider, model))
  {
    SelectTells(g, provider, model);
    ReadSnoc(g.leased, g.made, ProgressFrame(ReportOf(g.meter.(selected := Some((provider, model))), Prefill, None)));
  }

  lemma SelectTells(g: Gen, provider: string, model: string)
    requires FramesOk(g) && Telling(g) && g.step == Started
    ensures Telling(Select(g, provider, model))
  {
    var selected := Some((provider, model));
    ToldSnoc([], ProgressFrame(Report(0, LoadingModel, None, None)), selected);
    assert [] + [ProgressFrame(Report(0, LoadingModel, None, None))] == [ProgressFrame(Report(0, LoadingModel, None, None))];
    ToldSnoc(g.made, ProgressFrame(ReportOf(g.meter.(selected := selected), Prefill, None)), selected);
  }

  /** The frame a delta's progress may make counts that delta. */
  lemma EmitTells(g: Gen, delta: Delta, nowMs: nat)
    requires FramesOk(g) && Telling(g) && g.step == Chosen
    ensures Telling(Emit(g, delta, nowMs))
  {
    var (meter, reports) := Metered(g, nowMs);
    if reports != [] {
      assert Wrap(reports) == [ProgressFrame(reports[0])];
      ToldSnoc(g.made, ProgressFrame(reports[0]), g.meter.selected);
    } else {
      assert g.made + Wrap(reports) == g.made;
    }
    ToldSnoc(g.made + Wrap(reports), Chunk(|g.deltas|, delta), g.meter.selected);
  }

  lemma FinishTells(g: Gen, tokens: Option<nat>, kind: TerminalKind)
    requires FramesOk(g) && Telling(g) && g.step in {Started, Chosen}
    ensures Telling(Finish(g, tokens, kind))
  {
    var final := WithReport(g, Finalizing, tokens);
    ToldSnoc(g.made, ProgressFrame(ReportOf(g.meter, Finalizing, tokens)), g.meter.selected);
    ToldSnoc(final.made, Terminal(kind), g.meter.selected);
  }

  lemma EmitOk(g: Gen, delta: Delta, nowMs: nat)
    requires GenOk(g) && g.step == Chosen
    ensures GenOk(Emit(g, delta, nowMs))
  {
    EmitTells(g, delta, nowMs);
    EmitFrames(g, delta, nowMs);
    if g.leased {
      NotedCounts(g.meter, g.times, nowMs);
    }
  }

  lemma EmitFrames(g: Gen, delta: Delta, nowMs: nat)
    requires FramesOk(g) && g.step == Chosen
    ensures var e := Emit(g, delta, nowMs);
      FramesOk(e) && GeneratingIn(e.made) == GeneratingIn(g.made) + |Metered(g, nowMs).1|
  {
    NotedTrace(g, nowMs);
    ReadSnoc(g.leased, g.made + Wrap(Metered(g, nowMs).1), Chunk(|g.deltas|, delta));
  }

  lemma NotedCounts(meter: Meter, times: seq<nat>, nowMs: nat)
    requires Counted(meter, times)
    ensures Counted(Noted(meter, nowMs).0, times + [nowMs])
    ensures |Deltas(times + [nowMs]).1| == |Deltas(times).1| + |Noted(meter, nowMs).1|
  {
    assert (times + [nowMs])[..|times|] == times;
  }

  /** The frame a delta's progress may make fits the trace. */
  lemma NotedTrace(g: Gen, nowMs: nat)
    requires FramesOk(g) && g.step == Chosen
    ensures var (meter, reports) := Metered(g, nowMs);
      var between := g.made + Wrap(reports);
      && ReadAll(g.leased, between) == Some(Wire(Streaming, meter.seqNo, |g.deltas|))
      && ChunksOf(between) == g.deltas && GeneratingIn(between) == GeneratingIn(g.made) + |reports|
  {
    var reports := Metered(g, nowMs).1;
    if reports != [] {
      assert Wrap(reports) == [ProgressFrame(reports[0])];
      ReadSnoc(g.leased, g.made, ProgressFrame(reports[0]));
    } else {
      assert g.made + Wrap(reports) == g.made;
    }
  }

  lemma FinishOk(g: Gen, tokens: Option<nat>, kind: TerminalKind)
    requires GenOk(g) && g.step in {Started, Chosen} && (kind == InputRequestFrame ==> g.leased)
    ensures GenOk(Finish(g, tokens, kind))
  {
    FinishTells(g, tokens, kind);
    var final := WithReport(g, Finalizing, tokens);
    FinalTrace(g, tokens);
    ReadSnoc(g.leased, final.made, Terminal(kind));
    var w := Wire(if g.leased then Finalized else Streaming, final.meter.seqNo, |g.deltas|);
    assert Read(g.leased, w, Terminal(kind)) == Some(w.(place := Closed));
    assert g.leased ==> Counted(final.meter, g.times);
  }

  /** The finalizing frame of a leased generation fits the trace. */
  lemma FinalTrace(g: Gen, tokens: Option<nat>)
    requires GenOk(g) && g.step in {Started, Chosen}
    ensures var final := WithReport(g, Finalizing, tokens);
      && ReadAll(g.leased, final.made) == Some(Wire(if g.leased then Finalized else Streaming, final.meter.seqNo, |g.deltas|))
      && ChunksOf(final.made) == g.deltas && GeneratingIn(final.made) == GeneratingIn(g.made)
  {
    ReadSnoc(g.leased, g.made, ProgressFrame(ReportOf(g.meter, Finalizing, tokens)));
  }

  // ---- what the protocol means ---------------------------------------------------------

  function PhasesOf(frames: seq<Frame>): seq<Phase> {
    if frames == [] then []
    else
      var last := frames[|frames| - 1];
      PhasesOf(frames[..|frames| - 1]) + if last.ProgressFrame? then [last.report.phase] else []
  }

  function Generatings(n: nat): seq<Phase> {
    if n == 0 then [] else Generatings(n - 1) + [Generating]
  }

  /** The phases of a leased trace: loading, at most one prefill, any number of generating, then
      finalizing. */
  ghost predicate PhaseShape(place: Place, phases: seq<Phase>, n: nat) {
    match place
    case AtStart => phases == []
    case Loaded => phases == [LoadingModel]
    case Streaming => phases == [LoadingModel, Prefill] + Generatings(n)
    case _ => phases == [LoadingModel, Finalizing] || phases == [LoadingModel, Prefill] + Generatings(n) + [Finalizing]
  }

  lemma {:induction false} PhasesFollow(frames: seq<Frame>) returns (n: nat)
    requires ReadAll(true, frames).Some?
    ensures PhaseShape(ReadAll(true, frames).value.place, PhasesOf(frames), n)
  {
    if frames == [] {
      n := 0;
    } else {
      var before, last := frames[..|frames| - 1], frames[|frames| - 1];
      n := PhasesFollow(before);
      if last.ProgressFrame? && last.report.phase == Prefill {
        n := 0;
        assert PhasesOf(frames) == [LoadingModel, Prefill] + Generatings(0);
      } else if last.ProgressFrame? && last.report.phase == Generating {
        assert [LoadingModel, Prefill] + Generatings(n) + [Generating] == [LoadingModel, Prefill] + Generatings(n + 1);
        n := n + 1;
      }
    }
  }

  lemma {:induction false} ReadPrefix(leased: bool, frames: seq<Frame>, i: nat)
    requires i <= |frames| && ReadAll(leased, frames).Some?
    ensures ReadAll(leased, frames[..i]).Some?
    decreases |frames|
  {
    if i < |frames| {
      var before := frames[..|frames| - 1];
      ReadPrefix(leased, before, i);
      assert before[..i] == frames[..i];
    } else {
      assert frames[..i] == frames;
    }
  }

  /** Counts never shrink as a trace grows, and a closed trace does not grow. */
  lemma {:induction false} ReadMonotone(leased: bool, frames: seq<Frame>, i: nat)
    requires i <= |frames| && ReadAll(leased, frames).Some? && ReadAll(leased, frames[..i]).Some?
    ensures var a, b := ReadAll(leased, frames[..i]).value, ReadAll(leased, frames).value;
      a.progress <= b.progress && a.chunks <= b.chunks && (a.place == Closed ==> i == |frames|)
    decreases |frames|
  {
    if i < |frames| {
      var before := frames[..|frames| - 1];
      ReadMonotone(leased, before, i) by { assert before[..i] == frames[..i]; }
      assert before[..i] == frames[..i];
    } else {
      assert frames[..i] == frames;
    }
  }

  /** In a trace that follows the protocol, later frames of a kind have larger numbers, and the
      terminal frame is the last one. */
  lemma NumbersIncrease(leased: bool, frames: seq<Frame>, i: nat, j: nat)
    requires ReadAll(leased, frames).Some? && i < j < |frames|
    ensures frames[i].ProgressFrame? && frames[j].ProgressFrame? ==> frames[i].report.seqNo < frames[j].report.seqNo
    ensures frames[i].Chunk? && frames[j].Chunk? ==> frames[i].seqNo < frames[j].seqNo
    ensures !frames[i].Terminal?
  {
    ReadAt(leased, frames, i);
    ReadAt(leased, frames, j);
    assert frames[..j][..i + 1] == frames[..i + 1];
    ReadMonotone(leased, frames[..j], i + 1);
  }

  /** Each frame was read where the frames before it led. */
  lemma ReadAt(leased: bool, frames: seq<Frame>, i: nat)
    requires ReadAll(leased, frames).Some? && i < |frames|
    ensures ReadAll(leased, frames[..i]).Some? && ReadAll(leased, frames[..i + 1]).Some?
    ensures Read(leased, ReadAll(leased, frames[..i]).value, frames[i]) == ReadAll(leased, frames[..i + 1])
  {
    ReadPrefix(leased, frames, i + 1);
    assert frames[..i + 1][..i] == frames[..i];
  }

  /** The chunk numbered `n` carries the n-th delta. */
  lemma {:induction false} ChunkCarries(leased: bool, frames: seq<Frame>, i: nat)
    requires ReadAll(leased, frames).Some? && i < |frames| && frames[i].Chunk?
    ensures |ChunksOf(frames)| == ReadAll(leased, frames).value.chunks
    ensures frames[i].seqNo < |ChunksOf(frames)| && ChunksOf(frames)[frames[i].seqNo] == frames[i].delta
    decreases |frames|
  {
    ChunkCount(leased, frames);
    var before := frames[..|frames| - 1];
    ChunkCount(leased, before);
    if i < |frames| - 1 {
      ChunkCarries(leased, before, i);
    }
  }

  lemma {:induction false} ChunkCount(leased: bool, frames: seq<Frame>)
    requires ReadAll(leased, frames).Some?
    ensures |ChunksOf(frames)| == ReadAll(leased, frames).value.chunks
  {
    if frames != [] {
      ChunkCount(leased, frames[..|frames| - 1]);
    }
  }

  /** A finished leased generation made: loading, at most one prefill, generating frames, then
      finalizing, and it is closed by exactly one terminal frame, which comes last. */
  lemma FinishedTrace(g: Gen) returns (n: nat)
    requires GenOk(g) && g.leased && g.step == Ended
    ensures PhasesOf(g.made) == [LoadingModel, Finalizing]
         || PhasesOf(g.made) == [LoadingModel, Prefill] + Generatings(n) + [Finalizing]
    ensures g.made != [] && forall i | 0 <= i < |g.made| :: g.made[i].Terminal? <==> i == |g.made| - 1
  {
    n := PhasesFollow(g.made);
    var last := |g.made| - 1;
    forall i | 0 <= i < last
      ensures !g.made[i].Terminal?
    {
      NumbersIncrease(true, g.made, i, last);
    }
  }

  /** What the progress frames of a generation say: a loading frame nothing, a prefill frame the chosen
      provider and model, a generating frame also the number of the delta that follows it. */
  lemma ReportsSay(g: Gen, i: nat)
    requires GenOk(g) && i < |g.made| && g.made[i].ProgressFrame?
    ensures var r := g.made[i].report;
      && r.selected == (if r.phase == LoadingModel then None else g.meter.selected)
      && (r.phase in {LoadingModel, Prefill} ==> r.outputTokens == None)
      && (r.phase == Generating ==> r.outputTokens == Some(|ChunksOf(g.made[..i])| + 1))
  {
    ToldAt(g.made, g.meter.selected, i);
  }

  lemma {:induction false} ToldAt(frames: seq<Frame>, selected: Option<(string, string)>, i: nat)
    requires Told(frames, selected) && i < |frames| && frames[i].ProgressFrame?
    ensures Says(frames[i].report, |ChunksOf(frames[..i])|, selected)
    decreases |frames|
  {
    var before := frames[..|frames| - 1];
    if i < |before| {
      ToldAt(before, selected, i);
      assert before[..i] == frames[..i];
    }
  }

  /** The throttle holds for the whole trace: N deltas in T ms make at most N/64 + T/2000
      generating frames. */
  lemma TraceThrottle(g: Gen)
    requires GenOk(g) && g.leased && NonDecreasing(g.times)
    ensures GeneratingIn(g.made) <= |g.deltas| / 64 + LastTime(g.times) / 2000
  {
    Throttle(g.times);
  }
}
