/** What a session can always still do: every job can be run to its end, every abort can take effect,
    and while the queue has room nothing is lost. */
module SessionProgress {
  import opened Text
  import opened Json
  import opened Jobs
  import opened WireTrace
  import opened LeaseSession

  // ---- continuing a run ----------------------------------------------------------------

  /** A step of a job that nobody interferes with, or of the writer. */
  predicate Ordinary(step: Step) {
    step.Receive? || (step.Local? && !step.act.Panic? && !step.act.AbortLands? && !step.act.HeartbeatEnds?)
  }

  /** A run and its continuation by ordinary steps. */
  ghost predicate Continues(codec: Codec, maxParallel: nat, steps: seq<Step>, all: seq<Step>) {
    && steps <= all && Run(codec, maxParallel, steps).Some? && Run(codec, maxParallel, all).Some?
    && forall i | |steps| <= i < |all| :: Ordinary(all[i])
  }

  /** Nothing but one task, the queue and the permits has changed. */
  predicate OnlyTask(s: Session, s': Session, t: nat) {
    && |s'.tasks| == |s.tasks| && s'.channelOpen == s.channelOpen && s'.capacity == s.capacity
    && s'.reading == s.reading && s'.jobs == s.jobs
    && forall u | 0 <= u < |s.tasks| && u != t :: s'.tasks[u] == s.tasks[u]
  }

  lemma Extended(codec: Codec, maxParallel: nat, steps: seq<Step>, all: seq<Step>, step: Step)
    requires Continues(codec, maxParallel, steps, all) && Ordinary(step)
    requires Enabled(Run(codec, maxParallel, all).value, step)
    ensures Continues(codec, maxParallel, steps, all + [step])
    ensures Run(codec, maxParallel, all + [step]) == Some(Apply(codec, Run(codec, maxParallel, all).value, step))
  {
    assert (all + [step])[..|all|] == all;
  }

  lemma StateOk(codec: Codec, maxParallel: nat, steps: seq<Step>)
    requires Run(codec, maxParallel, steps).Some?
    ensures var s := Run(codec, maxParallel, steps).value;
      && s.received <= |s.sent| <= s.received + 1024 && PermitsOk(s) && TasksOk(s)
  {
    ReachableOk(codec, maxParallel, steps);
  }

  /** The writer takes a frame when there is no room; a closed channel needs none. */
  lemma MakeRoom(codec: Codec, maxParallel: nat, steps: seq<Step>, all: seq<Step>) returns (more: seq<Step>)
    requires Continues(codec, maxParallel, steps, all)
    ensures Continues(codec, maxParallel, steps, more)
    ensures var s, s' := Run(codec, maxParallel, all).value, Run(codec, maxParallel, more).value;
      (HasRoom(s') || !s.channelOpen) && s'.tasks == s.tasks && s' == s.(received := s'.received)
  {
    var s := Run(codec, maxParallel, all).value;
    StateOk(codec, maxParallel, all);
    if HasRoom(s) || !s.channelOpen {
      more := all;
    } else {
      Extended(codec, maxParallel, steps, all, Receive);
      more := all + [Receive];
    }
  }

  /** A task hands over the next of its frames. */
  lemma OfferNext(codec: Codec, maxParallel: nat, steps: seq<Step>, all: seq<Step>, t: nat) returns (more: seq<Step>)
    requires Continues(codec, maxParallel, steps, all)
    requires var s := Run(codec, maxParallel, all).value;
      t < |s.tasks| && s.tasks[t].stage == Running && s.tasks[t].offered < |s.tasks[t].gen.made|
    ensures Continues(codec, maxParallel, steps, more)
    ensures var s, s' := Run(codec, maxParallel, all).value, Run(codec, maxParallel, more).value;
      OnlyTask(s, s', t) && s'.free == s.free && s'.tasks[t] == s.tasks[t].(offered := s.tasks[t].offered + 1)
  {
    var roomy := MakeRoom(codec, maxParallel, steps, all);
    Extended(codec, maxParallel, steps, roomy, Local(t, Offer));
    more := roomy + [Local(t, Offer)];
  }

  /** A running task can always hand over all the frames it made. */
  lemma {:induction false} OfferAll(codec: Codec, maxParallel: nat, steps: seq<Step>, all: seq<Step>, t: nat)
    returns (more: seq<Step>)
    requires Continues(codec, maxParallel, steps, all)
    requires var s := Run(codec, maxParallel, all).value; t < |s.tasks| && s.tasks[t].stage == Running
    ensures Continues(codec, maxParallel, steps, more)
    ensures var s, s' := Run(codec, maxParallel, all).value, Run(codec, maxParallel, more).value;
      && OnlyTask(s, s', t) && s'.free == s.free && Settled(s'.tasks[t])
      && s'.tasks[t] == s.tasks[t].(offered := s'.tasks[t].offered)
    decreases var task := Run(codec, maxParallel, all).value.tasks[t]; |task.gen.made| - task.offered
  {
    StateOk(codec, maxParallel, all);
    var s := Run(codec, maxParallel, all).value;
    assert TaskOk(s.tasks[t]);
    if Settled(s.tasks[t]) {
      more := all;
    } else {
      more := OfferNext(codec, maxParallel, steps, all, t);
      more := OfferAll(codec, maxParallel, steps, more, t);
    }
  }

  /** What a gateway may return at any time. */
  function AnyResult(key: JobKey): JobResult<string> {
    JobResult(key.job, key.lease, Failed, Some("stopped"), None, None)
  }

  predicate Answers(task: Task, result: JobResult<string>) {
    result.jobId == task.key.job && result.leaseId == task.key.lease
  }

  /** The gateway call of a running task can return any result of its job. */
  lemma ReturnWith(codec: Codec, maxParallel: nat, steps: seq<Step>, all: seq<Step>, t: nat, result: JobResult<string>)
    returns (more: seq<Step>)
    requires Continues(codec, maxParallel, steps, all)
    requires var s := Run(codec, maxParallel, all).value;
      && t < |s.tasks| && s.tasks[t].stage == Running && s.tasks[t].gen.step in {Started, Chosen}
      && Answers(s.tasks[t], result)
    ensures Continues(codec, maxParallel, steps, more)
    ensures var s, s' := Run(codec, maxParallel, all).value, Run(codec, maxParallel, more).value;
      && OnlyTask(s, s', t) && s'.free == s.free && s'.tasks[t].stage == Running
      && s'.tasks[t].gen == Finish(s.tasks[t].gen, FinalTokens(s.tasks[t].gen, result), KindOf(codec, result))
  {
    var settled := OfferAll(codec, maxParallel, steps, all, t);
    var step := Local(t, Return(result));
    Extended(codec, maxParallel, steps, settled, step);
    more := settled + [step];
  }

  /** So it can return. */
  lemma ReturnNow(codec: Codec, maxParallel: nat, steps: seq<Step>, all: seq<Step>, t: nat) returns (more: seq<Step>)
    requires Continues(codec, maxParallel, steps, all)
    requires var s := Run(codec, maxParallel, all).value; t < |s.tasks| && s.tasks[t].stage == Running
    ensures Continues(codec, maxParallel, steps, more)
    ensures var s, s' := Run(codec, maxParallel, all).value, Run(codec, maxParallel, more).value;
      && OnlyTask(s, s', t) && s'.free == s.free && s'.tasks[t].stage == Running && s'.tasks[t].gen.step == Ended
      && (s.tasks[t].gen.step == Ended ==> s'.tasks[t].gen == s.tasks[t].gen)
  {
    StateOk(codec, maxParallel, all);
    var task := Run(codec, maxParallel, all).value.tasks[t];
    assert TaskOk(task);
    if task.gen.step == Ended {
      more := all;
    } else {
      more := ReturnWith(codec, maxParallel, steps, all, t, AnyResult(task.key));
    }
  }

  /** A running task can be run to its end: it then gives its permit back, and its last frame is in the
      queue. */
  lemma RunToEnd(codec: Codec, maxParallel: nat, steps: seq<Step>, all: seq<Step>, t: nat) returns (more: seq<Step>)
    requires Continues(codec, maxParallel, steps, all)
    requires var s := Run(codec, maxParallel, all).value; t < |s.tasks| && s.tasks[t].stage == Running
    ensures Continues(codec, maxParallel, steps, more)
    ensures var s, s' := Run(codec, maxParallel, all).value, Run(codec, maxParallel, more).value;
      && OnlyTask(s, s', t) && s'.free == s.free + 1 && s'.tasks[t].stage == Gone && (s'.channelOpen ==> LastQueued(s'.sent, s'.tasks[t], t))
      && (s.tasks[t].gen.step == Ended ==> s'.tasks[t].gen == s.tasks[t].gen)
  {
    var returned := ReturnNow(codec, maxParallel, steps, all, t);
    var settled := OfferAll(codec, maxParallel, steps, returned, t);
    Extended(codec, maxParallel, steps, settled, Local(t, Complete));
    more := settled + [Local(t, Complete)];
    TerminalIsQueued(codec, maxParallel, more);
    assert LeaseSession.Delivered(Run(codec, maxParallel, more).value.tasks[t]);
  }

  lemma {:induction false} SomeHolder(tasks: seq<Task>) returns (t: nat)
    requires Holders(tasks) > 0
    ensures t < |tasks| && tasks[t].stage == Running
  {
    t := |tasks| - 1;
    if tasks[t].stage != Running {
      t := SomeHolder(tasks[..t]);
    }
  }

  /** A waiting task gets a permit, if need be when another task ends. */
  lemma StartNow(codec: Codec, maxParallel: nat, steps: seq<Step>, t: nat) returns (more: seq<Step>)
    requires Run(codec, maxParallel, steps).Some?
    requires var s := Run(codec, maxParallel, steps).value; t < |s.tasks| && s.tasks[t].stage == Waiting
    ensures Continues(codec, maxParallel, steps, more)
    ensures var s, s' := Run(codec, maxParallel, steps).value, Run(codec, maxParallel, more).value;
      && t < |s'.tasks| && s'.tasks[t].stage == Running
      && s'.tasks[t].key == s.tasks[t].key && s'.tasks[t].gen.step == Started && s'.tasks[t].gen.deltas == []
  {
    var s := Run(codec, maxParallel, steps).value;
    StateOk(codec, maxParallel, steps);
    assert TaskOk(s.tasks[t]);
    more := steps;
    if s.free == 0 {
      var holder := SomeHolder(s.tasks);
      more := RunToEnd(codec, maxParallel, steps, steps, holder);
    }
    Extended(codec, maxParallel, steps, more, Local(t, Acquire));
    more := more + [Local(t, Acquire)];
  }

  /** No session is stuck: in every reachable state every job that has not ended can be run to its end
      without a panic or an abort, whatever holds the permits and however full the queue is, and its last
      frame is then queued, unless the channel has closed. */
  lemma EveryJobCanFinish(codec: Codec, maxParallel: nat, steps: seq<Step>, t: nat) returns (more: seq<Step>)
    requires Run(codec, maxParallel, steps).Some?
    requires var s := Run(codec, maxParallel, steps).value; t < |s.tasks| && s.tasks[t].stage != Gone
    ensures Continues(codec, maxParallel, steps, more)
    ensures var s' := Run(codec, maxParallel, more).value;
      t < |s'.tasks| && s'.tasks[t].stage == Gone && (s'.channelOpen ==> LastQueued(s'.sent, s'.tasks[t], t))
  {
    more := steps;
    if Run(codec, maxParallel, steps).value.tasks[t].stage == Waiting {
      more := StartNow(codec, maxParallel, steps, t);
    }
    more := RunToEnd(codec, maxParallel, steps, more, t);
  }

  /** Deltas at times that do not go back. */
  predicate Timed(deltas: seq<Delta>, times: seq<nat>) {
    |deltas| == |times| && forall i, j | 0 <= i <= j < |times| :: times[i] <= times[j]
  }

  /** A running task chooses its backend, if it has not, and can then emit any deltas at such times. */
  lemma ChooseNow(codec: Codec, maxParallel: nat, steps: seq<Step>, all: seq<Step>, t: nat, provider: string, model: string)
    returns (more: seq<Step>)
    requires Continues(codec, maxParallel, steps, all)
    requires var s := Run(codec, maxParallel, all).value;
      t < |s.tasks| && s.tasks[t].stage == Running && s.tasks[t].gen.step == Started
    ensures Continues(codec, maxParallel, steps, more)
    ensures var s, s' := Run(codec, maxParallel, all).value, Run(codec, maxParallel, more).value;
      && OnlyTask(s, s', t) && s'.tasks[t].stage == Running && s'.tasks[t].key == s.tasks[t].key
      && s'.tasks[t].gen.step == Chosen && s'.tasks[t].gen.meter.selected == Some((provider, model))
      && s'.tasks[t].gen.deltas == s.tasks[t].gen.deltas && s'.tasks[t].gen.times == s.tasks[t].gen.times
  {
    var settled := OfferAll(codec, maxParallel, steps, all, t);
    Extended(codec, maxParallel, steps, settled, Local(t, Choose(provider, model)));
    more := settled + [Local(t, Choose(provider, model))];
  }

  /** From `s` to `s'` a task that chose its backend made these deltas its own. */
  predicate Underway(s: Session, s': Session, t: nat, deltas: seq<Delta>, times: seq<nat>) {
    && OnlyTask(s, s', t) && t < |s.tasks| && s'.tasks[t].stage == Running && s'.tasks[t].key == s.tasks[t].key
    && s'.tasks[t].gen.step == Chosen && s'.tasks[t].gen.meter.selected == s.tasks[t].gen.meter.selected
    && s'.tasks[t].gen.deltas == deltas && s'.tasks[t].gen.times == times
  }

  lemma EmitNext(codec: Codec, maxParallel: nat, steps: seq<Step>, all: seq<Step>, s: Session, t: nat,
                 deltas: seq<Delta>, times: seq<nat>, delta: Delta, nowMs: nat)
    returns (more: seq<Step>)
    requires Continues(codec, maxParallel, steps, all)
    requires Underway(s, Run(codec, maxParallel, all).value, t, deltas, times)
    requires times == [] || times[|times| - 1] <= nowMs
    ensures Continues(codec, maxParallel, steps, more)
    ensures Underway(s, Run(codec, maxParallel, more).value, t, deltas + [delta], times + [nowMs])
  {
    var settled := OfferAll(codec, maxParallel, steps, all, t);
    Extended(codec, maxParallel, steps, settled, Local(t, EmitDelta(delta, nowMs)));
    more := settled + [Local(t, EmitDelta(delta, nowMs))];
  }

  lemma OneMore(deltas: seq<Delta>, times: seq<nat>, n: nat)
    requires Timed(deltas, times) && 0 < n <= |deltas|
    ensures deltas[..n - 1] + [deltas[n - 1]] == deltas[..n] && times[..n - 1] + [times[n - 1]] == times[..n]
    ensures var before := times[..n - 1]; before == [] || before[|before| - 1] <= times[n - 1]
  {
  }

  lemma {:induction false} EmitAll(codec: Codec, maxParallel: nat, steps: seq<Step>, all: seq<Step>, s: Session, t: nat,
                                   deltas: seq<Delta>, times: seq<nat>, n: nat)
    returns (more: seq<Step>)
    requires Continues(codec, maxParallel, steps, all) && Timed(deltas, times) && n <= |deltas|
    requires Underway(s, Run(codec, maxParallel, all).value, t, deltas[..0], times[..0])
    ensures Continues(codec, maxParallel, steps, more)
    ensures Underway(s, Run(codec, maxParallel, more).value, t, deltas[..n], times[..n])
    decreases n
  {
    if n == 0 {
      more := all;
    } else {
      more := EmitAll(codec, maxParallel, steps, all, s, t, deltas, times, n - 1);
      OneMore(deltas, times, n);
      more := EmitNext(codec, maxParallel, steps, more, s, t, deltas[..n - 1], times[..n - 1], deltas[n - 1], times[n - 1]);
    }
  }

  /** Any answer can pass: a waiting job, in any reachable state, can get any backend, any deltas at times
      that do not go back, and any result of its own, and then its frames close with the terminal frame of
      that result, which is queued, unless the channel has closed. */
  lemma AnyAnswerCanPass(codec: Codec, maxParallel: nat, steps: seq<Step>, t: nat, provider: string, model: string,
                         deltas: seq<Delta>, times: seq<nat>, result: JobResult<string>)
    returns (more: seq<Step>)
    requires Run(codec, maxParallel, steps).Some? && Timed(deltas, times)
    requires var s := Run(codec, maxParallel, steps).value;
      t < |s.tasks| && s.tasks[t].stage == Waiting && Answers(s.tasks[t], result)
    ensures Continues(codec, maxParallel, steps, more)
    ensures var s' := Run(codec, maxParallel, more).value;
      && t < |s'.tasks| && s'.tasks[t].stage == Gone && (s'.channelOpen ==> LastQueued(s'.sent, s'.tasks[t], t))
      && var gen := s'.tasks[t].gen;
      && gen.deltas == deltas && gen.times == times && gen.meter.selected == Some((provider, model))
      && gen.made != [] && gen.made[|gen.made| - 1] == Terminal(KindOf(codec, result))
  {
    more := StartNow(codec, maxParallel, steps, t);
    StateOk(codec, maxParallel, more);
    assert TaskOk(Run(codec, maxParallel, more).value.tasks[t]);
    more := ChooseNow(codec, maxParallel, steps, more, t, provider, model);
    more := EmitAll(codec, maxParallel, steps, more, Run(codec, maxParallel, more).value, t, deltas, times, |deltas|);
    more := ReturnWith(codec, maxParallel, steps, more, t, result);
    more := RunToEnd(codec, maxParallel, steps, more, t);
    assert deltas[..|deltas|] == deltas && times[..|times|] == times;
  }

  /** A session starts with all its permits, at least one, and reads; and while it reads it takes any
      frame. */
  lemma StartIs(codec: Codec, maxParallel: nat, steps: seq<Step>, event: Event)
    ensures Run(codec, maxParallel, []).Some?
    ensures var s := Run(codec, maxParallel, []).value;
      && s.reading && s.channelOpen && s.tasks == [] && s.jobs == map[] && s.sent == [] && s.received == 0
      && s.capacity == s.free == (if maxParallel == 0 then 1 else maxParallel)
    ensures Run(codec, maxParallel, steps).Some? && Run(codec, maxParallel, steps).value.reading ==>
      Run(codec, maxParallel, steps + [Reader(event)]).Some?
  {
    assert (steps + [Reader(event)])[..|steps|] == steps;
  }

  /** What is not a job's doing: the channel may close at any time, and until then other frames are queued
      while there is room and the writer takes what is there; a heartbeat told to stop can end. */
  lemma EnvironmentIs(s: Session)
    ensures Enabled(s, ChannelCloses)
    ensures Enabled(s, OtherFrame) <==> s.channelOpen && s.received <= |s.sent| < s.received + 1024
    ensures Enabled(s, Receive) <==> s.channelOpen && s.received < |s.sent|
    ensures forall t: nat | t < |s.tasks| && s.tasks[t].heartbeat == StopRequested :: Enabled(s, Local(t, HeartbeatEnds))
  {
  }

  /** Only the last frame of an ended generation is a terminal one. */
  lemma TerminalIsLast(gen: Gen, i: nat)
    requires GenOk(gen) && i < |gen.made| && gen.made[i].Terminal?
    ensures gen.step == Ended && i == |gen.made| - 1
  {
    ReadAt(gen.leased, gen.made, i);
    ReadMonotone(gen.leased, gen.made, i + 1);
    assert gen.made[..|gen.made|] == gen.made;
  }

  lemma AbortHasLanded(s: Session, t: nat)
    requires t < |s.tasks| && s.tasks[t].abortRequested && TaskOk(s.tasks[t])
    requires s.tasks[t].stage == Waiting
          || (s.tasks[t].stage == Running && (Settled(s.tasks[t]) || s.tasks[t].gen.made[s.tasks[t].offered].Terminal?))
    ensures Enabled(s, Local(t, AbortLands)) || Enabled(s, Local(t, Complete))
  {
    if s.tasks[t].stage == Running && !Settled(s.tasks[t]) {
      TerminalIsLast(s.tasks[t].gen, s.tasks[t].offered);
    }
  }

  /** The continuation is the task's own, and offers frames that do not wait for room. */
  ghost predicate OffersOnly(steps: seq<Step>, all: seq<Step>, t: nat) {
    steps <= all && forall i | |steps| <= i < |all| :: all[i] == Local(t, Offer)
  }

  /** An abort request takes effect: a task asked to abort that has not ended is, after handing over at
      most frames it has already made, at an await where the abort lands, or has nothing left to wait for.
      It needs no permit, no reply, no other task and no room in the queue. */
  lemma {:induction false} AbortCanLand(codec: Codec, maxParallel: nat, steps: seq<Step>, all: seq<Step>, t: nat)
    returns (more: seq<Step>)
    requires Continues(codec, maxParallel, steps, all) && OffersOnly(steps, all, t)
    requires var s := Run(codec, maxParallel, all).value; t < |s.tasks| && s.tasks[t].stage != Gone && s.tasks[t].abortRequested
    ensures Continues(codec, maxParallel, steps, more) && OffersOnly(steps, more, t)
    ensures var s' := Run(codec, maxParallel, more).value;
      Enabled(s', Local(t, AbortLands)) || Enabled(s', Local(t, Complete))
    decreases var task := Run(codec, maxParallel, all).value.tasks[t]; |task.gen.made| - task.offered
  {
    StateOk(codec, maxParallel, all);
    var s := Run(codec, maxParallel, all).value;
    assert TaskOk(s.tasks[t]);
    if s.tasks[t].stage == Waiting || Settled(s.tasks[t]) || s.tasks[t].gen.made[s.tasks[t].offered].Terminal? {
      AbortHasLanded(s, t);
      more := all;
    } else {
      Extended(codec, maxParallel, steps, all, Local(t, Offer));
      more := AbortCanLand(codec, maxParallel, steps, all + [Local(t, Offer)], t);
    }
  }

  // ---- room in the queue ---------------------------------------------------------------

  /** The channel was open and fewer than 1024 frames waited, all along. */
  ghost predicate NeverFull(codec: Codec, maxParallel: nat, steps: seq<Step>)
    requires Run(codec, maxParallel, steps).Some?
  {
    && (var s := Run(codec, maxParallel, steps).value; s.channelOpen && |s.sent| < s.received + 1024)
    && (steps == [] || NeverFull(codec, maxParallel, steps[..|steps| - 1]))
  }

  /** While the queue has room nothing is lost: every frame a task offered was queued, in the order it
      made them. */
  lemma {:induction false} RoomKeepsAll(codec: Codec, maxParallel: nat, steps: seq<Step>, t: nat)
    requires Run(codec, maxParallel, steps).Some? && t < |Run(codec, maxParallel, steps).value.tasks|
    requires NeverFull(codec, maxParallel, steps)
    ensures var s := Run(codec, maxParallel, steps).value;
      s.tasks[t].offered <= |s.tasks[t].gen.made| && FramesOf(s.sent, t) == s.tasks[t].gen.made[..s.tasks[t].offered]
  {
    StateOk(codec, maxParallel, steps);
    assert TaskOk(Run(codec, maxParallel, steps).value.tasks[t]);
    if steps != [] {
      var before, step := steps[..|steps| - 1], steps[|steps| - 1];
      var s := Run(codec, maxParallel, before).value;
      StateOk(codec, maxParallel, before);
      if t < |s.tasks| {
        RoomKeepsAll(codec, maxParallel, before, t);
        StepKeepsAll(codec, s, step, t);
      } else {
        NewcomerHasNone(codec, maxParallel, before, t);
        NewcomerSilent(codec, s, step, t);
      }
    }
  }

  lemma FramesSnoc(sent: seq<Out>, o: Out, t: nat)
    ensures FramesOf(sent + [o], t) == FramesOf(sent, t) + if o.FromTask? && o.t == t then [o.frame] else []
  {
    assert (sent + [o])[..|sent|] == sent;
  }

  /** Every frame a task offered is in the queue. */
  predicate KeptAll(sent: seq<Out>, task: Task, t: nat) {
    task.offered <= |task.gen.made| && FramesOf(sent, t) == task.gen.made[..task.offered]
  }

  lemma OfferKeepsAll(codec: Codec, s: Session, u: nat, t: nat)
    requires t < |s.tasks| && u < |s.tasks| && CanAct(s, s.tasks[u], Offer) && HasRoom(s) && KeptAll(s.sent, s.tasks[t], t)
    ensures var s' := Apply(codec, s, Local(u, Offer)); KeptAll(s'.sent, s'.tasks[t], t)
  {
    FramesSnoc(s.sent, FromTask(u, s.tasks[u].offered, s.tasks[u].gen.made[s.tasks[u].offered]), t);
  }

  lemma MoveKeepsAll(codec: Codec, s: Session, u: nat, act: Act, t: nat)
    requires t < |s.tasks| && u < |s.tasks| && CanAct(s, s.tasks[u], act) && !act.Offer? && KeptAll(s.sent, s.tasks[t], t)
    ensures var s' := Apply(codec, s, Local(u, act)); KeptAll(s'.sent, s'.tasks[t], t)
  {
    MadeGrows(codec, s, s.tasks[u], act);
  }

  lemma StepKeepsAll(codec: Codec, s: Session, step: Step, t: nat)
    requires HasRoom(s) && Enabled(s, step) && t < |s.tasks| && KeptAll(s.sent, s.tasks[t], t)
    ensures var s' := Apply(codec, s, step); t < |s'.tasks| && KeptAll(s'.sent, s'.tasks[t], t)
  {
    match step
    case Reader(event) => HeardKeeps(s, event);
    case Local(u, act) =>
      if act.Offer? {
        OfferKeepsAll(codec, s, u, t);
      } else {
        MoveKeepsAll(codec, s, u, act, t);
      }
    case OtherFrame => FramesSnoc(s.sent, Other, t);
    case _ =>
  }

  /** A task that is not there yet has no frames. */
  lemma {:induction false} NoFrames(outs: seq<Out>, tasks: seq<Task>, t: nat)
    requires LeaseSession.Carries(outs, tasks) && t >= |tasks|
    ensures FramesOf(outs, t) == []
  {
    if outs != [] {
      assert LeaseSession.Carries(outs[..|outs| - 1], tasks);
      NoFrames(outs[..|outs| - 1], tasks, t);
    }
  }

  lemma NewcomerHasNone(codec: Codec, maxParallel: nat, steps: seq<Step>, t: nat)
    requires Run(codec, maxParallel, steps).Some? && t >= |Run(codec, maxParallel, steps).value.tasks|
    ensures FramesOf(Run(codec, maxParallel, steps).value.sent, t) == []
  {
    ReachableOk(codec, maxParallel, steps);
    var s := Run(codec, maxParallel, steps).value;
    NoFrames(s.sent, s.tasks, t);
  }

  lemma NewcomerSilent(codec: Codec, s: Session, step: Step, t: nat)
    requires Enabled(s, step) && |s.tasks| <= t < |Apply(codec, s, step).tasks|
    ensures var s' := Apply(codec, s, step); s'.tasks[t].offered == 0 && s'.sent == s.sent
  {
    match step
    case Reader(event) => HeardKeeps(s, event);
    case _ =>
  }
}
