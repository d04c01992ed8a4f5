/** The session and the limiter together: the tasks of a connection hold permits, and each asks the
    shared limiter once before its backend call (gateway.rs, limits.rs, coordinator_client.rs). */
module SessionLimits {
  import opened Text
  import opened Json
  import opened WireTrace
  import S = LeaseSession
  import L = Limits

  /** Where a task is with its reservation: not asked for yet, held during a call, or done with,
      because it was refused or given back. */
  datatype Call = Unasked | Inside(external: bool) | Over

  /** `earlier` counts the provider slots that tasks of an earlier connection still hold. */
  datatype World = World(session: S.Session, limits: L.State, calls: seq<Call>, earlier: nat)

  /** A session step, a task that asks the limiter, a task whose call returns, or the end of a task
      of an earlier connection. */
  datatype Step = Take(step: S.Step) | Ask(t: nat, external: bool, now: nat) | GiveBack(t: nat) | EarlierEnds

  function Start(maxParallel: nat, times: seq<nat>, earlier: nat): World {
    World(S.Start(maxParallel), L.State(times, earlier), [], earlier)
  }

  /** A running task between two frames, its backend chosen. */
  predicate InGateway(w: World, t: nat) {
    && t < |w.session.tasks| && t < |w.calls|
    && w.session.tasks[t].stage == S.Running && w.session.tasks[t].gen.step == Chosen && S.Settled(w.session.tasks[t])
  }

  /** Deltas come from a call; a result comes after it, unless the job was refused before a backend
      was chosen. */
  predicate Enabled(w: World, step: Step) {
    match step
    case Take(Local(t, EmitDelta(_, _))) => t < |w.calls| && w.calls[t].Inside? && S.Enabled(w.session, step.step)
    case Take(Local(t, Return(_))) =>
      S.Enabled(w.session, step.step) && t < |w.calls|
      && (w.calls[t].Over? || (w.calls[t].Unasked? && w.session.tasks[t].gen.step == Started))
    case Take(other) => S.Enabled(w.session, other)
    case Ask(t, _, _) => InGateway(w, t) && w.calls[t].Unasked?
    case GiveBack(t) => InGateway(w, t) && w.calls[t].Inside?
    case EarlierEnds => w.earlier > 0
  }

  /** A call that ends: its reservation is dropped. */
  function Ended(w: World, t: nat): World
    requires t < |w.calls|
  {
    var limits := if w.calls[t].Inside? then L.Release(w.limits, w.calls[t].external) else w.limits;
    w.(limits := limits, calls := w.calls[t := Over])
  }

  /** A task that panics or is aborted drops its reservation in the same step; a new task has asked
      for nothing. */
  function Settle(w: World, step: S.Step): World {
    match step
    case Local(t, Panic) => if t < |w.calls| then Ended(w, t) else w
    case Local(t, AbortLands) => if t < |w.calls| then Ended(w, t) else w
    case Reader(JobFrame(_)) => w.(calls := w.calls + [Unasked])
    case _ => w
  }

  function Apply(codec: Codec, caps: L.Caps, w: World, step: Step): World
    requires Enabled(w, step)
  {
    match step
    case Take(step) => Settle(w, step).(session := S.Apply(codec, w.session, step))
    case Ask(t, external, now) =>
      var granted := L.OutcomeOf(caps, w.limits, external, now) == L.Reserved;
      w.(limits := L.Reserve(caps, w.limits, external, now), calls := w.calls[t := if granted then Inside(external) else Over])
    case GiveBack(t) => Ended(w, t)
    case EarlierEnds => w.(limits := L.Release(w.limits, true), earlier := w.earlier - 1)
  }

  function Run(codec: Codec, caps: L.Caps, start: World, steps: seq<Step>): Option<World> {
    if steps == [] then Some(start)
    else
      match Run(codec, caps, start, steps[..|steps| - 1])
      case None => None
      case Some(w) => if Enabled(w, steps[|steps| - 1]) then Some(Apply(codec, caps, w, steps[|steps| - 1])) else None
  }

  // ---- the session is one of LeaseSession ----------------------------------------------

  function SessionSteps(steps: seq<Step>): seq<S.Step> {
    if steps == [] then []
    else
      var before, last := SessionSteps(steps[..|steps| - 1]), steps[|steps| - 1];
      if last.Take? then before + [last.step] else before
  }

  /** Leaving the limiter out of a run leaves a run of the session. */
  lemma {:induction false} Projects(codec: Codec, caps: L.Caps, maxParallel: nat, times: seq<nat>, earlier: nat, steps: seq<Step>)
    requires Run(codec, caps, Start(maxParallel, times, earlier), steps).Some?
    ensures S.Run(codec, maxParallel, SessionSteps(steps))
         == Some(Run(codec, caps, Start(maxParallel, times, earlier), steps).value.session)
  {
    if steps != [] {
      var n := |steps| - 1;
      Projects(codec, caps, maxParallel, times, earlier, steps[..n]);
      if steps[n].Take? {
        var before := SessionSteps(steps[..n]);
        assert (before + [steps[n].step])[..|before|] == before;
      }
    }
  }

  // ---- the count -----------------------------------------------------------------------

  function ExternalCalls(calls: seq<Call>): nat {
    if calls == [] then 0
    else ExternalCalls(calls[..|calls| - 1]) + if calls[|calls| - 1] == Inside(true) then 1 else 0
  }

  lemma {:induction false} ExternalUpdate(calls: seq<Call>, t: nat, c: Call)
    requires t < |calls|
    ensures ExternalCalls(calls[t := c])
         == ExternalCalls(calls) - (if calls[t] == Inside(true) then 1 else 0) + if c == Inside(true) then 1 else 0
  {
    var last := |calls| - 1;
    if t < last {
      ExternalUpdate(calls[..last], t, c);
      assert calls[t := c][..last] == calls[..last][t := c];
    } else {
      assert calls[t := c][..last] == calls[..last];
    }
  }

  lemma ExternalSnoc(calls: seq<Call>, c: Call)
    ensures ExternalCalls(calls + [c]) == ExternalCalls(calls) + if c == Inside(true) then 1 else 0
  {
    assert (calls + [c])[..|calls|] == calls;
  }

  /** A task inside a call is running, so it holds a permit, and one that waits has asked for nothing. */
  predicate CallsOk(tasks: seq<S.Task>, calls: seq<Call>) {
    && |calls| == |tasks|
    && (forall t | 0 <= t < |tasks| && calls[t].Inside? :: tasks[t].stage == S.Running && tasks[t].gen.step == Chosen)
    && (forall t | 0 <= t < |tasks| && tasks[t].stage == S.Waiting :: calls[t].Unasked?)
  }

  predicate Accounted(w: World) {
    w.limits.inflight == ExternalCalls(w.calls) + w.earlier
  }

  predicate WithinCap(caps: L.Caps, w: World, earlier: nat) {
    caps.parallel.Some? ==> w.limits.inflight <= caps.parallel.value || w.limits.inflight <= earlier
  }

  // ---- preservation --------------------------------------------------------------------

  lemma EndedAccounted(w: World, t: nat)
    requires Accounted(w) && t < |w.calls|
    ensures Accounted(Ended(w, t)) && Ended(w, t).limits.inflight <= w.limits.inflight
  {
    ExternalUpdate(w.calls, t, Over);
  }

  lemma StepAccounted(codec: Codec, caps: L.Caps, w: World, step: Step)
    requires Accounted(w) && Enabled(w, step)
    ensures Accounted(Apply(codec, caps, w, step))
  {
    match step
    case Take(Local(t, _)) => if t < |w.calls| { EndedAccounted(w, t); }
    case Take(_) => ExternalSnoc(w.calls, Unasked);
    case Ask(t, external, now) =>
      var granted := L.OutcomeOf(caps, w.limits, external, now) == L.Reserved;
      ExternalUpdate(w.calls, t, if granted then Inside(external) else Over);
    case GiveBack(t) => EndedAccounted(w, t);
    case EarlierEnds =>
  }

  lemma StepWithinCap(codec: Codec, caps: L.Caps, w: World, step: Step, earlier: nat)
    requires WithinCap(caps, w, earlier) && Enabled(w, step)
    ensures WithinCap(caps, Apply(codec, caps, w, step), earlier)
  {
  }

  lemma MovedCalls(codec: Codec, tasks: seq<S.Task>, calls: seq<Call>, t: nat, task: S.Task, c: Call)
    requires CallsOk(tasks, calls) && t < |tasks|
    requires c.Inside? ==> task.stage == S.Running && task.gen.step == Chosen
    requires task.stage == S.Waiting ==> c.Unasked?
    ensures CallsOk(tasks[t := task], calls[t := c])
  {
  }

  lemma HeardCalls(s: S.Session, calls: seq<Call>, event: S.Event)
    requires CallsOk(s.tasks, calls)
    ensures CallsOk(S.Heard(s, event).tasks, if event.JobFrame? then calls + [Unasked] else calls)
  {
    S.HeardKeeps(s, event);
  }

  lemma LocalCalls(codec: Codec, w: World, t: nat, act: S.Act)
    requires CallsOk(w.session.tasks, w.calls) && Enabled(w, Take(S.Local(t, act)))
    requires t < |w.session.tasks| && S.TaskOk(w.session.tasks[t])
    ensures CallsOk(S.Apply(codec, w.session, S.Local(t, act)).tasks, Settle(w, S.Local(t, act)).calls)
  {
    var task := w.session.tasks[t];
    var c := if act.Panic? || act.AbortLands? then Over else w.calls[t];
    assert w.calls[t := w.calls[t]] == w.calls;
    MovedCalls(codec, w.session.tasks, w.calls, t, S.Moved(codec, task, act), c);
  }

  lemma StepCalls(codec: Codec, caps: L.Caps, w: World, step: Step)
    requires CallsOk(w.session.tasks, w.calls) && S.TasksOk(w.session) && Enabled(w, step)
    ensures var w' := Apply(codec, caps, w, step); CallsOk(w'.session.tasks, w'.calls)
  {
    match step
    case Take(Local(t, act)) => LocalCalls(codec, w, t, act);
    case Take(Reader(event)) => HeardCalls(w.session, w.calls, event);
    case _ =>
  }

  lemma {:induction false} ReachableOk(codec: Codec, caps: L.Caps, maxParallel: nat, times: seq<nat>, earlier: nat, steps: seq<Step>)
    requires Run(codec, caps, Start(maxParallel, times, earlier), steps).Some?
    ensures var w := Run(codec, caps, Start(maxParallel, times, earlier), steps).value;
      CallsOk(w.session.tasks, w.calls) && Accounted(w) && WithinCap(caps, w, earlier) && w.earlier <= earlier
  {
    if steps != [] {
      var n := |steps| - 1;
      var w := Run(codec, caps, Start(maxParallel, times, earlier), steps[..n]).value;
      ReachableOk(codec, caps, maxParallel, times, earlier, steps[..n]);
      Projects(codec, caps, maxParallel, times, earlier, steps[..n]);
      S.ReachableOk(codec, maxParallel, SessionSteps(steps[..n]));
      StepCalls(codec, caps, w, steps[n]);
      StepAccounted(codec, caps, w, steps[n]);
      StepWithinCap(codec, caps, w, steps[n], earlier);
    }
  }

  // ---- over every run ------------------------------------------------------------------

  lemma {:induction false} CallersHold(tasks: seq<S.Task>, calls: seq<Call>)
    requires CallsOk(tasks, calls)
    ensures ExternalCalls(calls) <= S.Holders(tasks)
    ensures (exists t | 0 <= t < |tasks| :: tasks[t].stage == S.Running && calls[t] != Inside(true)) ==>
              ExternalCalls(calls) < S.Holders(tasks)
  {
    if tasks != [] {
      var n := |tasks| - 1;
      CallersHold(tasks[..n], calls[..n]);
      if t :| 0 <= t < n && tasks[t].stage == S.Running && calls[t] != Inside(true) {
        assert tasks[..n][t].stage == S.Running && calls[..n][t] != Inside(true);
      }
    }
  }

  /** In every reachable state the limiter counts exactly the tasks that are inside a call to a
      provider, each of which holds a permit, and the slots of earlier connections still to be given
      back: whatever panicked, was aborted or was cancelled has given its slot back with its permit.
      So the count is within the permits, within the cap, and zero when nothing runs. */
  lemma SlotsAreCallers(codec: Codec, caps: L.Caps, maxParallel: nat, times: seq<nat>, earlier: nat, steps: seq<Step>)
    requires Run(codec, caps, Start(maxParallel, times, earlier), steps).Some?
    ensures var w := Run(codec, caps, Start(maxParallel, times, earlier), steps).value;
      && |w.calls| == |w.session.tasks| && w.earlier <= earlier
      && (forall t | 0 <= t < |w.calls| && w.calls[t].Inside? :: w.session.tasks[t].stage == S.Running)
      && w.limits.inflight == ExternalCalls(w.calls) + w.earlier
      && ExternalCalls(w.calls) <= S.Holders(w.session.tasks) <= w.session.capacity
      && (caps.parallel.Some? ==> w.limits.inflight <= caps.parallel.value || w.limits.inflight <= earlier)
      && ((forall t | 0 <= t < |w.calls| :: w.session.tasks[t].stage != S.Running) ==> w.limits.inflight == w.earlier)
  {
    ReachableOk(codec, caps, maxParallel, times, earlier, steps);
    Projects(codec, caps, maxParallel, times, earlier, steps);
    S.ReachableOk(codec, maxParallel, SessionSteps(steps));
    var w := Run(codec, caps, Start(maxParallel, times, earlier), steps).value;
    CallersHold(w.session.tasks, w.calls);
    if forall t | 0 <= t < |w.calls| :: w.session.tasks[t].stage != S.Running {
      NoneRunning(w.session.tasks);
    }
  }

  lemma {:induction false} NoneRunning(tasks: seq<S.Task>)
    requires forall t | 0 <= t < |tasks| :: tasks[t].stage != S.Running
    ensures S.Holders(tasks) == 0
  {
    if tasks != [] {
      NoneRunning(tasks[..|tasks| - 1]);
    }
  }

  /** A cap on parallel calls that is no less than the permits never refuses a task: who asks holds a
      permit and is in no call, so at most the other permits are in use. */
  lemma EnoughSlots(codec: Codec, caps: L.Caps, maxParallel: nat, times: seq<nat>, earlier: nat, steps: seq<Step>,
                    t: nat, external: bool, now: nat)
    requires Run(codec, caps, Start(maxParallel, times, earlier), steps).Some?
    requires Enabled(Run(codec, caps, Start(maxParallel, times, earlier), steps).value, Ask(t, external, now))
    requires caps.parallel.Some? ==> caps.parallel.value >= S.Start(maxParallel).capacity + earlier
    ensures L.OutcomeOf(caps, Run(codec, caps, Start(maxParallel, times, earlier), steps).value.limits, external, now) != L.ParallelCap
  {
    SlotsAreCallers(codec, caps, maxParallel, times, earlier, steps);
    Projects(codec, caps, maxParallel, times, earlier, steps);
    S.ReachableOk(codec, maxParallel, SessionSteps(steps));
    ReachableOk(codec, caps, maxParallel, times, earlier, steps);
    var w := Run(codec, caps, Start(maxParallel, times, earlier), steps).value;
    CallersHold(w.session.tasks, w.calls);
  }

  // ---- a smaller cap refuses -----------------------------------------------------------

  lemma RunSnoc(codec: Codec, caps: L.Caps, start: World, steps: seq<Step>, w: World, step: Step)
    requires Run(codec, caps, start, steps) == Some(w) && Enabled(w, step)
    ensures Run(codec, caps, start, steps + [step]) == Some(Apply(codec, caps, w, step))
  {
    assert (steps + [step])[..|steps|] == steps;
  }

  /** A world that can take another job, with `n` tasks. */
  predicate Open(w: World, n: nat, permits: nat) {
    w.session.reading && |w.session.tasks| == |w.calls| == n && w.session.free == permits
  }

  /** The last of the tasks is at the given stage and step. */
  predicate At(w: World, n: nat, stage: S.Stage, step: GenStep) {
    && n < |w.session.tasks| && n < |w.calls| && w.calls[n] == Unasked && w.session.tasks[n].stage == stage
    && w.session.tasks[n].gen.step == step && S.Settled(w.session.tasks[n])
  }

  /** A job without a lease arrives. */
  lemma Arrive(codec: Codec, caps: L.Caps, w: World, n: nat, permits: nat)
    requires Open(w, n, permits)
    ensures var step := Take(S.Reader(S.JobFrame(S.JobKey(Decimal(n), None))));
      && Enabled(w, step)
      && var w' := Apply(codec, caps, w, step);
      && Open(w', n + 1, permits) && At(w', n, S.Waiting, Idle) && w'.session.tasks[n].key == S.JobKey(Decimal(n), None)
      && w'.calls == w.calls + [Unasked] && w'.limits == w.limits
  {
  }

  /** It takes a permit. */
  lemma TakePermit(codec: Codec, caps: L.Caps, w: World, n: nat, permits: nat)
    requires Open(w, n + 1, permits) && permits > 0 && At(w, n, S.Waiting, Idle)
    requires !w.session.tasks[n].gen.leased && w.session.tasks[n].gen.made == []
    ensures var step := Take(S.Local(n, S.Acquire));
      && Enabled(w, step)
      && var w' := Apply(codec, caps, w, step);
      && Open(w', n + 1, permits - 1) && At(w', n, S.Running, Started) && w'.calls == w.calls && w'.limits == w.limits
      && w'.session.tasks[n].gen.made == [] && !w'.session.tasks[n].gen.leased
  {
  }

  /** It chooses its backend. */
  lemma ChooseAny(codec: Codec, caps: L.Caps, w: World, n: nat, permits: nat)
    requires Open(w, n + 1, permits) && At(w, n, S.Running, Started) && !w.session.tasks[n].gen.leased
    ensures var step := Take(S.Local(n, S.Choose("", "")));
      && Enabled(w, step)
      && var w' := Apply(codec, caps, w, step);
      && Open(w', n + 1, permits) && InGateway(w', n) && w'.calls == w.calls && w'.limits == w.limits
  {
  }

  /** A job without a lease arrives, takes a permit and chooses its backend. */
  lemma Enter(codec: Codec, caps: L.Caps, start: World, steps: seq<Step>, w: World, n: nat, permits: nat)
    returns (steps': seq<Step>, w': World)
    requires Run(codec, caps, start, steps) == Some(w) && Open(w, n, permits) && permits > 0
    ensures Run(codec, caps, start, steps') == Some(w') && Open(w', n + 1, permits - 1)
    ensures InGateway(w', n) && w'.calls == w.calls + [Unasked] && w'.limits == w.limits
  {
    var arrives, starts := Take(S.Reader(S.JobFrame(S.JobKey(Decimal(n), None)))), Take(S.Local(n, S.Acquire));
    Arrive(codec, caps, w, n, permits);
    RunSnoc(codec, caps, start, steps, w, arrives);
    var a := Apply(codec, caps, w, arrives);
    NewIsBare(codec, caps, w, n, permits);
    TakePermit(codec, caps, a, n, permits);
    RunSnoc(codec, caps, start, steps + [arrives], a, starts);
    var b := Apply(codec, caps, a, starts);
    steps', w' := Pick(codec, caps, start, steps + [arrives] + [starts], b, n, permits - 1);
  }

  lemma NewIsBare(codec: Codec, caps: L.Caps, w: World, n: nat, permits: nat)
    requires Open(w, n, permits)
    ensures var step := Take(S.Reader(S.JobFrame(S.JobKey(Decimal(n), None))));
      && Enabled(w, step)
      && var w' := Apply(codec, caps, w, step);
      n < |w'.session.tasks| && !w'.session.tasks[n].gen.leased && w'.session.tasks[n].gen.made == []
  {
  }

  lemma Pick(codec: Codec, caps: L.Caps, start: World, steps: seq<Step>, w: World, n: nat, permits: nat)
    returns (steps': seq<Step>, w': World)
    requires Run(codec, caps, start, steps) == Some(w) && Open(w, n + 1, permits)
    requires At(w, n, S.Running, Started) && !w.session.tasks[n].gen.leased
    ensures Run(codec, caps, start, steps') == Some(w') && Open(w', n + 1, permits)
    ensures InGateway(w', n) && w'.calls == w.calls && w'.limits == w.limits
  {
    var chooses := Take(S.Local(n, S.Choose("", "")));
    ChooseAny(codec, caps, w, n, permits);
    RunSnoc(codec, caps, start, steps, w, chooses);
    steps', w' := steps + [chooses], Apply(codec, caps, w, chooses);
  }

  /** As many tasks inside calls to a provider as the cap and the permits allow. */
  lemma {:induction false} Crowd(codec: Codec, caps: L.Caps, maxParallel: nat, n: nat) returns (steps: seq<Step>, w: World)
    requires caps.perHour.None? && caps.parallel.Some? && n <= caps.parallel.value && n <= S.Start(maxParallel).capacity
    ensures Run(codec, caps, Start(maxParallel, [], 0), steps) == Some(w)
    ensures Open(w, n, S.Start(maxParallel).capacity - n) && w.limits.inflight == n
  {
    var start := Start(maxParallel, [], 0);
    if n == 0 {
      steps, w := [], start;
    } else {
      var before, v := Crowd(codec, caps, maxParallel, n - 1);
      var entered, u := Enter(codec, caps, start, before, v, n - 1, S.Start(maxParallel).capacity - (n - 1));
      var ask := Ask(n - 1, true, 0);
      RunSnoc(codec, caps, start, entered, u, ask);
      steps, w := entered + [ask], Apply(codec, caps, u, ask);
    }
  }

  predicate AsksFor(codec: Codec, caps: L.Caps, maxParallel: nat, steps: seq<Step>, t: nat, external: bool, now: nat) {
    var w := Run(codec, caps, Start(maxParallel, [], 0), steps);
    w.Some? && Enabled(w.value, Ask(t, external, now))
  }

  predicate RefusedSlot(codec: Codec, caps: L.Caps, maxParallel: nat, steps: seq<Step>, external: bool, now: nat) {
    var w := Run(codec, caps, Start(maxParallel, [], 0), steps);
    w.Some? && L.OutcomeOf(caps, w.value.limits, external, now) == L.ParallelCap
  }

  lemma SmallCapRefuses(codec: Codec, caps: L.Caps, maxParallel: nat) returns (steps: seq<Step>, t: nat)
    requires caps.perHour.None? && caps.parallel.Some? && caps.parallel.value < S.Start(maxParallel).capacity
    ensures AsksFor(codec, caps, maxParallel, steps, t, true, 0) && RefusedSlot(codec, caps, maxParallel, steps, true, 0)
  {
    t := caps.parallel.value;
    var before, v := Crowd(codec, caps, maxParallel, t);
    var w;
    steps, w := Enter(codec, caps, Start(maxParallel, [], 0), before, v, t, S.Start(maxParallel).capacity - t);
  }

  /** Without an hourly cap or slots held from before, a cap on parallel calls refuses no task in any
      run exactly when it is no less than the permits. */
  lemma EnoughSlotsIff(codec: Codec, caps: L.Caps, maxParallel: nat)
    requires caps.perHour.None? && caps.parallel.Some?
    ensures (forall steps, t, external, now | AsksFor(codec, caps, maxParallel, steps, t, external, now) ::
               !RefusedSlot(codec, caps, maxParallel, steps, external, now))
       <==> caps.parallel.value >= S.Start(maxParallel).capacity
  {
    if caps.parallel.value >= S.Start(maxParallel).capacity {
      forall steps, t, external, now | AsksFor(codec, caps, maxParallel, steps, t, external, now)
        ensures !RefusedSlot(codec, caps, maxParallel, steps, external, now)
      {
        EnoughSlots(codec, caps, maxParallel, [], 0, steps, t, external, now);
      }
    } else {
      var steps, t := SmallCapRefuses(codec, caps, maxParallel);
    }
  }
}
