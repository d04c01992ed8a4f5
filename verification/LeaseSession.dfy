/** One connection to the coordinator as a step system (coordinator_client.rs, the reader loop of
    `connect_and_run`): leases are tracked by generation, tasks wait for a permit, run, and are
    cancelled or reaped, and their frames share one bounded queue. Every task step interleaves
    freely with every other; an abort is a request that lands when that task next awaits. */
module LeaseSession {
  import opened Text
  import opened Json
  import opened Jobs
  import opened Progress
  import opened WireTrace

  const OUTBOUND_CAPACITY: nat := 1024

  /** One entry per lease generation. */
  datatype JobKey = JobKey(job: string, lease: Option<string>)

  datatype Stage = Waiting | Running | Gone

  datatype Heartbeat = Beating | StopRequested | Stopped

  /** A spawned job task with its heartbeat task. `offered` counts the frames of `gen.made` that
      were handed to the queue. */
  datatype Task = Task(key: JobKey, stage: Stage, abortRequested: bool, heartbeat: Heartbeat, gen: Gen, offered: nat)

  /** A frame in the queue: the i-th frame of task `t`, or any other message. */
  datatype Out = FromTask(t: nat, i: nat, frame: Frame) | Other

  /** `sent` holds every frame the queue accepted, in order; the writer has taken `received` of
      them. `jobs` maps a generation to its task. */
  datatype Session = Session(capacity: nat, free: nat, tasks: seq<Task>, jobs: map<JobKey, nat>,
                             sent: seq<Out>, received: nat, channelOpen: bool, reading: bool)

  function Start(maxParallel: nat): Session {
    var permits := if maxParallel >= 1 then maxParallel else 1;
    Session(permits, permits, [], map[], [], 0, true, true)
  }

  /** What the reader loop does with the table. */
  datatype Event =
    | JobFrame(key: JobKey)
    | CancelFrame(job: string, lease: Option<string>)
    | Reap
    | Close

  /** What one job task does, or what befalls it. */
  datatype Act =
    | Acquire
    | Choose(provider: string, model: string)
    | EmitDelta(delta: Delta, nowMs: nat)
    | Return(result: JobResult<string>)
    | Offer
    | Complete
    | Panic
    | AbortLands
    | HeartbeatEnds

  datatype Step = Reader(event: Event) | Local(t: nat, act: Act) | OtherFrame | Receive | ChannelCloses

  // ---- the tracking table --------------------------------------------------------------

  function StopBeat(h: Heartbeat): Heartbeat {
    if h == Stopped then Stopped else StopRequested
  }

  function Aborted(task: Task): Task {
    task.(abortRequested := true, heartbeat := StopBeat(task.heartbeat))
  }

  function AbortAll(tasks: seq<Task>, which: set<nat>): (r: seq<Task>)
    ensures |r| == |tasks|
    ensures forall i | 0 <= i < |tasks| :: r[i] == if i in which then Aborted(tasks[i]) else tasks[i]
  {
    seq(|tasks|, i requires 0 <= i < |tasks| => if i in which then Aborted(tasks[i]) else tasks[i])
  }

  function Quiet(task: Task): Task {
    task.(heartbeat := StopBeat(task.heartbeat))
  }

  function StopBeats(tasks: seq<Task>, which: set<nat>): (r: seq<Task>)
    ensures |r| == |tasks|
    ensures forall i | 0 <= i < |tasks| :: r[i] == if i in which then Quiet(tasks[i]) else tasks[i]
  {
    seq(|tasks|, i requires 0 <= i < |tasks| => if i in which then Quiet(tasks[i]) else tasks[i])
  }

  function TasksOf(jobs: map<JobKey, nat>, keys: set<JobKey>): set<nat> {
    set k | k in keys && k in jobs :: jobs[k]
  }

  /** `insert`, and the abort of the entry it replaces. */
  function TrackJob(tasks: seq<Task>, jobs: map<JobKey, nat>, key: JobKey, t: nat): (seq<Task>, map<JobKey, nat>) {
    (AbortAll(tasks, TasksOf(jobs, {key})), jobs[key := t])
  }

  predicate Names(key: JobKey, job: string, lease: Option<string>) {
    key.job == job && (lease.None? || key.lease == lease)
  }

  function Targets(jobs: map<JobKey, nat>, job: string, lease: Option<string>): set<JobKey> {
    set k | k in jobs && Names(k, job, lease)
  }

  function CancelJob(tasks: seq<Task>, jobs: map<JobKey, nat>, job: string, lease: Option<string>): (seq<Task>, map<JobKey, nat>) {
    var targets := Targets(jobs, job, lease);
    (AbortAll(tasks, TasksOf(jobs, targets)), jobs - targets)
  }

  function Finished(tasks: seq<Task>, jobs: map<JobKey, nat>): set<JobKey> {
    set k | k in jobs && jobs[k] < |tasks| && tasks[jobs[k]].stage == Gone
  }

  function ReapJobs(tasks: seq<Task>, jobs: map<JobKey, nat>): (seq<Task>, map<JobKey, nat>) {
    var ended := Finished(tasks, jobs);
    (StopBeats(tasks, TasksOf(jobs, ended)), jobs - ended)
  }

  // ---- steps ---------------------------------------------------------------------------

  /** All frames made so far were offered to the queue. */
  predicate Settled(task: Task) {
    task.offered == |task.gen.made|
  }

  /** Where a task can observe an abort: waiting for a permit, inside the gateway call, or waiting
      for room to send its terminal frame. */
  predicate AtAwait(task: Task) {
    || task.stage == Waiting
    || (task.stage == Running && task.gen.step in {Started, Chosen} && Settled(task))
    || (task.stage == Running && task.gen.step == Ended && task.offered + 1 == |task.gen.made|)
  }

  predicate HasRoom(s: Session) {
    s.channelOpen && s.received <= |s.sent| && |s.sent| - s.received < OUTBOUND_CAPACITY
  }

  /** When a task can act. Only the terminal frame waits for room; any other frame is dropped when
      there is none. */
  predicate CanAct(s: Session, task: Task, act: Act) {
    match act
    case Acquire => task.stage == Waiting && s.free > 0
    case Choose(_, _) => task.stage == Running && Settled(task) && task.gen.step == Started
    case EmitDelta(_, nowMs) =>
      task.stage == Running && Settled(task) && task.gen.step == Chosen && LastTime(task.gen.times) <= nowMs
    case Return(result) =>
      task.stage == Running && Settled(task) && task.gen.step in {Started, Chosen}
      && result.jobId == task.key.job && result.leaseId == task.key.lease
    case Offer =>
      task.stage == Running && task.offered < |task.gen.made|
      && (task.gen.made[task.offered].Terminal? ==> HasRoom(s) || !s.channelOpen)
    case Complete => task.stage == Running && Settled(task) && task.gen.step == Ended
    case Panic => task.stage == Running && task.gen.step in {Started, Chosen}
    case AbortLands => task.abortRequested && AtAwait(task)
    case HeartbeatEnds => task.heartbeat == StopRequested || task.key.lease.None? || !s.channelOpen
  }

  predicate Enabled(s: Session, step: Step) {
    match step
    case Reader(_) => s.reading
    case Local(t, act) => t < |s.tasks| && CanAct(s, s.tasks[t], act)
    case OtherFrame => HasRoom(s)
    case Receive => s.channelOpen && s.received < |s.sent|
    case ChannelCloses => true
  }

  function Spawned(key: JobKey): Task {
    Task(key, Waiting, false, Beating, NewGen(key.lease.Some?), 0)
  }

  function Heard(s: Session, event: Event): Session {
    match event
    case JobFrame(key) =>
      var (tasks, jobs) := TrackJob(s.tasks, s.jobs, key, |s.tasks|);
      s.(tasks := tasks + [Spawned(key)], jobs := jobs)
    case CancelFrame(job, lease) =>
      var (tasks, jobs) := CancelJob(s.tasks, s.jobs, job, lease);
      s.(tasks := tasks, jobs := jobs)
    case Reap =>
      var (tasks, jobs) := ReapJobs(s.tasks, s.jobs);
      s.(tasks := tasks, jobs := jobs)
    case Close =>
      s.(tasks := AbortAll(s.tasks, TasksOf(s.jobs, s.jobs.Keys)), jobs := map[], reading := false)
  }

  function GenAfter(codec: Codec, gen: Gen, act: Act): Gen {
    match act
    case Acquire => Begin(gen)
    case Choose(provider, model) => Select(gen, provider, model)
    case EmitDelta(delta, nowMs) => Emit(gen, delta, nowMs)
    case Return(result) => Finish(gen, FinalTokens(gen, result), KindOf(codec, result))
    case _ => gen
  }

  function Moved(codec: Codec, task: Task, act: Act): Task {
    var task' := task.(gen := GenAfter(codec, task.gen, act));
    match act
    case Acquire => task'.(stage := Running)
    case Offer => task'.(offered := task.offered + 1)
    case Complete => task'.(stage := Gone, heartbeat := StopBeat(task.heartbeat))
    case Panic => task'.(stage := Gone)
    case AbortLands => task'.(stage := Gone)
    case HeartbeatEnds => task'.(heartbeat := Stopped)
    case _ => task'
  }

  /** A task takes a permit when it starts, and gives it back however it ends. */
  function FreeAfter(free: nat, task: Task, act: Act): int {
    match act
    case Acquire => free - 1
    case Complete => free + 1
    case Panic => free + 1
    case AbortLands => if task.stage == Running then free + 1 else free
    case _ => free
  }

  function Apply(codec: Codec, s: Session, step: Step): Session
    requires Enabled(s, step)
  {
    match step
    case Reader(event) => Heard(s, event)
    case Local(t, act) =>
      var task := s.tasks[t];
      s.(tasks := s.tasks[t := Moved(codec, task, act)], free := FreeAfter(s.free, task, act),
         sent := if act.Offer? && HasRoom(s) then s.sent + [FromTask(t, task.offered, task.gen.made[task.offered])] else s.sent)
    case OtherFrame => s.(sent := s.sent + [Other])
    case Receive => s.(received := s.received + 1)
    case ChannelCloses => s.(channelOpen := false)
  }

  /** The session after a run of steps, if each was possible in turn. */
  function Run(codec: Codec, maxParallel: nat, steps: seq<Step>): Option<Session> {
    if steps == [] then Some(Start(maxParallel))
    else
      match Run(codec, maxParallel, steps[..|steps| - 1])
      case None => None
      case Some(s) => if Enabled(s, steps[|steps| - 1]) then Some(Apply(codec, s, steps[|steps| - 1])) else None
  }

  // ---- invariants ----------------------------------------------------------------------

  predicate Live(task: Task) {
    task.stage != Gone && !task.abortRequested
  }

  /** Every entry is a task under its own generation that nobody asked to abort; every such task
      that has not ended, and every heartbeat still beating, has its entry. */
  ghost predicate Tracks(tasks: seq<Task>, jobs: map<JobKey, nat>) {
    && (forall k | k in jobs :: jobs[k] < |tasks| && tasks[jobs[k]].key == k && !tasks[jobs[k]].abortRequested)
    && (forall t | 0 <= t < |tasks| && (Live(tasks[t]) || tasks[t].heartbeat == Beating) ::
          tasks[t].key in jobs && jobs[tasks[t].key] == t)
  }

  ghost predicate TableOk(s: Session) {
    Tracks(s.tasks, s.jobs) && (!s.reading ==> s.jobs == map[])
  }

  function Holders(tasks: seq<Task>): nat {
    if tasks == [] then 0
    else Holders(tasks[..|tasks| - 1]) + if tasks[|tasks| - 1].stage == Running then 1 else 0
  }

  predicate PermitsOk(s: Session) {
    s.capacity >= 1 && s.free + Holders(s.tasks) == s.capacity
  }

  ghost predicate TaskOk(task: Task) {
    && GenOk(task.gen) && task.gen.leased == task.key.lease.Some? && NonDecreasing(task.gen.times)
    && task.offered <= |task.gen.made|
    && (task.stage == Waiting ==> task.gen.step == Idle)
    && (task.stage == Running ==> task.gen.step != Idle)
  }

  ghost predicate TasksOk(s: Session) {
    forall t | 0 <= t < |s.tasks| :: TaskOk(s.tasks[t])
  }

  /** Each frame in the queue is one its task made and offered. */
  ghost predicate Carries(sent: seq<Out>, tasks: seq<Task>) {
    forall p | 0 <= p < |sent| && sent[p].FromTask? ::
      && sent[p].t < |tasks| && sent[p].i < tasks[sent[p].t].offered && sent[p].i < |tasks[sent[p].t].gen.made|
      && sent[p].frame == tasks[sent[p].t].gen.made[sent[p].i]
  }

  /** The frames of one task keep the order it made them in. */
  ghost predicate InOrder(sent: seq<Out>) {
    forall p, q | 0 <= p < q < |sent| && sent[p].FromTask? && sent[q].FromTask? && sent[p].t == sent[q].t ::
      sent[p].i < sent[q].i
  }

  ghost predicate QueueOk(s: Session) {
    && s.received <= |s.sent| && |s.sent| - s.received <= OUTBOUND_CAPACITY
    && Carries(s.sent, s.tasks) && InOrder(s.sent)
  }

  ghost predicate Inv(s: Session) {
    TableOk(s) && PermitsOk(s) && TasksOk(s) && QueueOk(s)
  }

  lemma {:induction false} HoldersUpdate(tasks: seq<Task>, t: nat, task: Task)
    requires t < |tasks|
    ensures Holders(tasks[t := task]) == Holders(tasks) - (if tasks[t].stage == Running then 1 else 0)
                                         + if task.stage == Running then 1 else 0
  {
    var last := |tasks| - 1;
    if t < last {
      HoldersUpdate(tasks[..last], t, task);
      assert tasks[t := task][..last] == tasks[..last][t := task];
    } else {
      assert tasks[t := task][..last] == tasks[..last];
    }
  }

  lemma {:induction false} HoldersSame(a: seq<Task>, b: seq<Task>)
    requires |a| == |b| && forall i | 0 <= i < |a| :: a[i].stage == b[i].stage
    ensures Holders(a) == Holders(b)
  {
    if a != [] {
      HoldersSame(a[..|a| - 1], b[..|b| - 1]);
    }
  }

  lemma TrackTable(tasks: seq<Task>, jobs: map<JobKey, nat>, task: Task)
    requires Tracks(tasks, jobs) && Live(task)
    ensures var (tasks', jobs') := TrackJob(tasks, jobs, task.key, |tasks|);
      Tracks(tasks' + [task], jobs')
  {
  }

  lemma CancelTable(tasks: seq<Task>, jobs: map<JobKey, nat>, job: string, lease: Option<string>)
    requires Tracks(tasks, jobs)
    ensures var (tasks', jobs') := CancelJob(tasks, jobs, job, lease); Tracks(tasks', jobs')
  {
    var targets := Targets(jobs, job, lease);
    forall k | k in jobs && k !in targets
      ensures jobs[k] !in TasksOf(jobs, targets)
    {
    }
  }

  lemma ReapTable(tasks: seq<Task>, jobs: map<JobKey, nat>)
    requires Tracks(tasks, jobs)
    ensures var (tasks', jobs') := ReapJobs(tasks, jobs); Tracks(tasks', jobs')
  {
    var ended := Finished(tasks, jobs);
    forall k | k in jobs && k !in ended
      ensures jobs[k] !in TasksOf(jobs, ended)
    {
    }
  }

  lemma CloseTable(tasks: seq<Task>, jobs: map<JobKey, nat>)
    requires Tracks(tasks, jobs)
    ensures Tracks(AbortAll(tasks, TasksOf(jobs, jobs.Keys)), map[])
  {
  }

  lemma HeardTable(s: Session, event: Event)
    requires Inv(s) && s.reading
    ensures TableOk(Heard(s, event))
  {
    match event
    case JobFrame(key) => TrackTable(s.tasks, s.jobs, Task(key, Waiting, false, Beating, NewGen(key.lease.Some?), 0));
    case CancelFrame(job, lease) => CancelTable(s.tasks, s.jobs, job, lease);
    case Reap => ReapTable(s.tasks, s.jobs);
    case Close => CloseTable(s.tasks, s.jobs);
  }

  /** A task that acts keeps its generation and its abort flag, and never comes back to life. */
  lemma MovedKeeps(codec: Codec, s: Session, task: Task, act: Act)
    requires CanAct(s, task, act)
    ensures var task' := Moved(codec, task, act);
      && task'.key == task.key && task'.abortRequested == task.abortRequested
      && (task'.stage != Gone ==> task.stage != Gone)
      && (task'.heartbeat == Beating ==> task.heartbeat == Beating)
  {
  }

  lemma TablePreserved(codec: Codec, s: Session, step: Step)
    requires Inv(s) && Enabled(s, step)
    ensures TableOk(Apply(codec, s, step))
  {
    match step
    case Reader(event) => HeardTable(s, event);
    case Local(t, act) => MovedKeeps(codec, s, s.tasks[t], act);
    case _ =>
  }

  lemma PermitsPreserved(codec: Codec, s: Session, step: Step)
    requires Inv(s) && Enabled(s, step)
    ensures PermitsOk(Apply(codec, s, step))
  {
    match step
    case Reader(event) => HeardPermits(s, event);
    case Local(t, act) => PermitsLocal(codec, s, t, act);
    case _ =>
  }

  lemma PermitsLocal(codec: Codec, s: Session, t: nat, act: Act)
    requires PermitsOk(s) && t < |s.tasks| && CanAct(s, s.tasks[t], act)
    ensures PermitsOk(Apply(codec, s, Local(t, act)))
  {
    HoldersUpdate(s.tasks, t, Moved(codec, s.tasks[t], act));
  }

  lemma HeardPermits(s: Session, event: Event)
    requires PermitsOk(s)
    ensures PermitsOk(Heard(s, event))
  {
    HeardKeeps(s, event);
    var s' := Heard(s, event);
    HoldersSame(s.tasks, s'.tasks[..|s.tasks|]);
    if !event.JobFrame? {
      assert s'.tasks[..|s.tasks|] == s'.tasks;
    }
  }

  lemma EmitTaskOk(task: Task, delta: Delta, nowMs: nat)
    requires TaskOk(task) && task.gen.step == Chosen && LastTime(task.gen.times) <= nowMs
    ensures TaskOk(task.(gen := Emit(task.gen, delta, nowMs)))
  {
    EmitOk(task.gen, delta, nowMs);
    assert |Emit(task.gen, delta, nowMs).made| >= |task.gen.made|;
  }

  lemma MovedOk(codec: Codec, s: Session, task: Task, act: Act)
    requires TaskOk(task) && CanAct(s, task, act)
    ensures TaskOk(Moved(codec, task, act))
  {
    match act
    case Acquire => BeginOk(task.gen);
    case Choose(provider, model) => SelectOk(task.gen, provider, model);
    case EmitDelta(delta, nowMs) => EmitTaskOk(task, delta, nowMs);
    case Return(result) => FinishOk(task.gen, FinalTokens(task.gen, result), KindOf(codec, result));
    case _ =>
  }

  lemma TasksPreserved(codec: Codec, s: Session, step: Step)
    requires Inv(s) && Enabled(s, step)
    ensures TasksOk(Apply(codec, s, step))
  {
    match step
    case Reader(event) => HeardTasks(s, event);
    case Local(t, act) => MovedOk(codec, s, s.tasks[t], act);
    case _ =>
  }

  /** The reader only adds a task and touches abort flags and heartbeats. */
  lemma HeardKeeps(s: Session, event: Event)
    ensures var s' := Heard(s, event);
      && s'.sent == s.sent && s'.received == s.received && |s.tasks| <= |s'.tasks| <= |s.tasks| + 1
      && (forall t | 0 <= t < |s.tasks| :: s'.tasks[t].key == s.tasks[t].key && s'.tasks[t].gen == s.tasks[t].gen
            && s'.tasks[t].offered == s.tasks[t].offered && s'.tasks[t].stage == s.tasks[t].stage)
      && (|s.tasks| < |s'.tasks| ==> var new' := s'.tasks[|s.tasks|];
            new'.stage == Waiting && new'.offered == 0 && new'.gen == NewGen(new'.key.lease.Some?))
  {
  }

  lemma HeardTasks(s: Session, event: Event)
    requires TasksOk(s)
    ensures TasksOk(Heard(s, event))
  {
    HeardKeeps(s, event);
    var s' := Heard(s, event);
    forall t | 0 <= t < |s'.tasks|
      ensures TaskOk(s'.tasks[t])
    {
      if t == |s.tasks| {
        NewGenOk(s'.tasks[t].key.lease.Some?);
      } else {
        assert TaskOk(s.tasks[t]);
      }
    }
  }

  /** Frames once made stay made. */
  lemma MadeGrows(codec: Codec, s: Session, task: Task, act: Act)
    requires CanAct(s, task, act)
    ensures var task' := Moved(codec, task, act);
      task.gen.made <= task'.gen.made && task.offered <= task'.offered
  {
  }

  lemma CarriesPreserved(sent: seq<Out>, tasks: seq<Task>, tasks': seq<Task>)
    requires Carries(sent, tasks) && |tasks| <= |tasks'|
    requires forall t | 0 <= t < |tasks| ::
               tasks[t].gen.made <= tasks'[t].gen.made && tasks[t].offered <= tasks'[t].offered
    ensures Carries(sent, tasks')
  {
  }

  lemma QueueAppend(sent: seq<Out>, tasks: seq<Task>, t: nat)
    requires Carries(sent, tasks) && InOrder(sent)
    requires t < |tasks| && tasks[t].offered < |tasks[t].gen.made|
    ensures var o := FromTask(t, tasks[t].offered, tasks[t].gen.made[tasks[t].offered]);
      InOrder(sent + [o]) && Carries(sent + [o], tasks[t := tasks[t].(offered := tasks[t].offered + 1)])
  {
  }

  lemma QueueLocal(codec: Codec, s: Session, t: nat, act: Act)
    requires QueueOk(s) && t < |s.tasks| && CanAct(s, s.tasks[t], act)
    ensures QueueOk(Apply(codec, s, Local(t, act)))
  {
    if act.Offer? {
      QueueAppend(s.sent, s.tasks, t);
      assert Moved(codec, s.tasks[t], act) == s.tasks[t].(offered := s.tasks[t].offered + 1);
    }
    MadeGrows(codec, s, s.tasks[t], act);
    CarriesPreserved(s.sent, s.tasks, s.tasks[t := Moved(codec, s.tasks[t], act)]);
  }

  lemma QueuePreserved(codec: Codec, s: Session, step: Step)
    requires Inv(s) && Enabled(s, step)
    ensures QueueOk(Apply(codec, s, step))
  {
    match step
    case Reader(event) =>
      HeardKeeps(s, event);
      CarriesPreserved(s.sent, s.tasks, Heard(s, event).tasks);
    case Local(t, act) => QueueLocal(codec, s, t, act);
    case _ =>
  }

  /** Every reachable state satisfies the invariants. */
  lemma {:induction false} ReachableOk(codec: Codec, maxParallel: nat, steps: seq<Step>)
    requires Run(codec, maxParallel, steps).Some?
    ensures Inv(Run(codec, maxParallel, steps).value)
    ensures Run(codec, maxParallel, steps).value.capacity == Start(maxParallel).capacity
  {
    if steps != [] {
      var before, step := steps[..|steps| - 1], steps[|steps| - 1];
      ReachableOk(codec, maxParallel, before);
      var s := Run(codec, maxParallel, before).value;
      TablePreserved(codec, s, step);
      PermitsPreserved(codec, s, step);
      TasksPreserved(codec, s, step);
      QueuePreserved(codec, s, step);
    }
  }

  // ---- safety over every run -----------------------------------------------------------

  /** In every reachable state: a task that has not ended and was not asked to abort is tracked
      under its own generation; a generation has at most one such task; a beating heartbeat
      belongs to the tracked task of its generation; at most `max(1, max_parallel_jobs)` tasks
      hold a permit; at most 1024 frames wait in the queue; and once the loop has exited every task
      has ended or was asked to abort. */
  lemma SessionSafe(codec: Codec, maxParallel: nat, steps: seq<Step>)
    requires Run(codec, maxParallel, steps).Some?
    ensures var s := Run(codec, maxParallel, steps).value;
      && (forall t | 0 <= t < |s.tasks| && Live(s.tasks[t]) :: s.tasks[t].key in s.jobs && s.jobs[s.tasks[t].key] == t)
      && (forall t, u | 0 <= t < |s.tasks| && 0 <= u < |s.tasks| && Live(s.tasks[t]) && Live(s.tasks[u])
            && s.tasks[t].key == s.tasks[u].key :: t == u)
      && (forall t | 0 <= t < |s.tasks| && s.tasks[t].heartbeat == Beating ::
            s.tasks[t].key in s.jobs && s.jobs[s.tasks[t].key] == t)
      && Holders(s.tasks) <= (if maxParallel >= 1 then maxParallel else 1)
      && s.received <= |s.sent| <= s.received + 1024
      && (!s.reading ==> forall t | 0 <= t < |s.tasks| ::
            (s.tasks[t].stage == Gone || s.tasks[t].abortRequested) && s.tasks[t].heartbeat != Beating)
  {
    ReachableOk(codec, maxParallel, steps);
  }

  predicate Tracked(s: Session, t: nat) {
    t < |s.tasks| && s.tasks[t].key in s.jobs && s.jobs[s.tasks[t].key] == t
  }

  /** A task that was asked to abort: so is its heartbeat, and nothing else about it changed. */
  predicate AskedToAbort(before: Task, after: Task) {
    after.abortRequested && SilencedFrom(before, after.(abortRequested := before.abortRequested))
  }

  /** A task whose heartbeat was told to stop, and nothing else about it changed. */
  predicate SilencedFrom(before: Task, after: Task) {
    after == before.(heartbeat := after.heartbeat) && after.heartbeat != Beating
    && (before.heartbeat == Stopped ==> after.heartbeat == Stopped)
  }

  /** A cancel aborts exactly the tracked tasks it names: one generation when it names a lease,
      every generation of the job otherwise. It forgets their entries and no others. */
  lemma CancelIsExact(s: Session, job: string, lease: Option<string>)
    requires Inv(s) && s.reading
    ensures var s' := Heard(s, CancelFrame(job, lease));
      && |s'.tasks| == |s.tasks|
      && (forall t | 0 <= t < |s.tasks| ::
            if Tracked(s, t) && s.tasks[t].key.job == job && (lease == None || s.tasks[t].key.lease == lease)
            then AskedToAbort(s.tasks[t], s'.tasks[t]) else s'.tasks[t] == s.tasks[t])
      && (forall k :: k in s'.jobs <==> k in s.jobs && !(k.job == job && (lease == None || k.lease == lease)))
      && (forall k | k in s'.jobs :: s'.jobs[k] == s.jobs[k])
      && (forall t | 0 <= t < |s.tasks| && Live(s.tasks[t]) ::
            s'.tasks[t].abortRequested <==> s.tasks[t].key.job == job && (lease == None || s.tasks[t].key.lease == lease))
  {
    var s' := Heard(s, CancelFrame(job, lease));
    var targets := Targets(s.jobs, job, lease);
    forall t | 0 <= t < |s.tasks|
      ensures t in TasksOf(s.jobs, targets) <==> Tracked(s, t) && Names(s.tasks[t].key, job, lease)
    {
      if t in TasksOf(s.jobs, targets) {
        var k :| k in targets && k in s.jobs && s.jobs[k] == t;
        assert s.tasks[t].key == k;
      }
    }
  }

  /** A reap forgets exactly the entries whose task has ended, stops their heartbeats, and touches
      nothing else. */
  lemma ReapIsExact(s: Session)
    requires Inv(s) && s.reading
    ensures var s' := Heard(s, Reap);
      && |s'.tasks| == |s.tasks| && s' == s.(tasks := s'.tasks, jobs := s'.jobs)
      && (forall k :: k in s'.jobs <==> k in s.jobs && s.tasks[s.jobs[k]].stage != Gone)
      && (forall k | k in s'.jobs :: s'.jobs[k] == s.jobs[k])
      && (forall t | 0 <= t < |s.tasks| ::
            if Tracked(s, t) && s.tasks[t].stage == Gone then SilencedFrom(s.tasks[t], s'.tasks[t])
            else s'.tasks[t] == s.tasks[t])
  {
    forall t | 0 <= t < |s.tasks|
      ensures t in TasksOf(s.jobs, Finished(s.tasks, s.jobs)) <==> Tracked(s, t) && s.tasks[t].stage == Gone
    {
      if t in TasksOf(s.jobs, Finished(s.tasks, s.jobs)) {
        var k :| k in Finished(s.tasks, s.jobs) && s.jobs[k] == t;
        assert s.tasks[t].key == k;
      }
    }
  }

  /** Right after any reap of any run no ended task's heartbeat beats, and every entry is a task that
      has not ended: a generation that died, by a panic too, does not keep its lease alive. */
  lemma ReapedIsQuiet(codec: Codec, maxParallel: nat, steps: seq<Step>)
    requires Run(codec, maxParallel, steps + [Reader(Reap)]).Some?
    ensures var s := Run(codec, maxParallel, steps + [Reader(Reap)]).value;
      && (forall t | 0 <= t < |s.tasks| && s.tasks[t].stage == Gone :: s.tasks[t].heartbeat != Beating)
      && (forall k | k in s.jobs :: s.jobs[k] < |s.tasks| && s.tasks[s.jobs[k]].stage != Gone)
  {
    var all := steps + [Reader(Reap)];
    assert all[..|all| - 1] == steps;
    ReachableOk(codec, maxParallel, steps);
    ReapIsExact(Run(codec, maxParallel, steps).value);
  }

  /** The end of the reader loop asks every tracked task to abort, forgets them all and reads no more. */
  lemma CloseIsExact(s: Session)
    requires Inv(s)
    ensures var s' := Heard(s, Close);
      && |s'.tasks| == |s.tasks| && s' == s.(tasks := s'.tasks, jobs := map[], reading := false)
      && (forall t | 0 <= t < |s.tasks| ::
            if Tracked(s, t) then AskedToAbort(s.tasks[t], s'.tasks[t]) else s'.tasks[t] == s.tasks[t])
  {
    forall t | 0 <= t < |s.tasks|
      ensures t in TasksOf(s.jobs, s.jobs.Keys) <==> Tracked(s, t)
    {
      if t in TasksOf(s.jobs, s.jobs.Keys) {
        var k :| k in s.jobs.Keys && s.jobs[k] == t;
        assert s.tasks[t].key == k;
      }
    }
  }

  lemma ReplacedIs(tasks: seq<Task>, jobs: map<JobKey, nat>, key: JobKey)
    ensures var (tasks', jobs') := TrackJob(tasks, jobs, key, |tasks|);
      && |tasks'| == |tasks| && jobs' == jobs[key := |tasks|]
      && forall t | 0 <= t < |tasks| ::
           if key in jobs && jobs[key] == t then AskedToAbort(tasks[t], tasks'[t]) else tasks'[t] == tasks[t]
  {
    assert forall t :: t in TasksOf(jobs, {key}) <==> key in jobs && jobs[key] == t;
  }

  /** A job frame adds one waiting task, tracked under its generation, and aborts exactly the task it
      replaces there. */
  lemma JobIsExact(s: Session, key: JobKey)
    ensures var s' := Heard(s, JobFrame(key));
      && |s'.tasks| == |s.tasks| + 1 && s' == s.(tasks := s'.tasks, jobs := s.jobs[key := |s.tasks|])
      && s'.tasks[|s.tasks|] == Task(key, Waiting, false, Beating, s'.tasks[|s.tasks|].gen, 0)
      && s'.tasks[|s.tasks|].gen.made == []
      && (forall t | 0 <= t < |s.tasks| ::
            if key in s.jobs && s.jobs[key] == t then AskedToAbort(s.tasks[t], s'.tasks[t]) else s'.tasks[t] == s.tasks[t])
  {
    ReplacedIs(s.tasks, s.jobs, key);
  }

  // ---- heartbeats ----------------------------------------------------------------------

  /** A heartbeat that outlives its task belongs to one that panicked: a task that was asked to abort,
      or made its terminal frame before it ended, leaves none. */
  ghost predicate BeatsOk(s: Session) {
    forall t | 0 <= t < |s.tasks| && s.tasks[t].heartbeat == Beating ::
      !s.tasks[t].abortRequested && (s.tasks[t].stage == Gone ==> s.tasks[t].gen.step in {Started, Chosen})
  }

  lemma HeardBeats(s: Session, event: Event)
    requires BeatsOk(s)
    ensures BeatsOk(Heard(s, event))
  {
    HeardKeeps(s, event);
    var s' := Heard(s, event);
    forall t | 0 <= t < |s.tasks|
      ensures s'.tasks[t].heartbeat == Beating ==> s'.tasks[t] == s.tasks[t]
    {
    }
  }

  lemma {:induction false} OnlyPanicsBeat(codec: Codec, maxParallel: nat, steps: seq<Step>)
    requires Run(codec, maxParallel, steps).Some?
    ensures BeatsOk(Run(codec, maxParallel, steps).value)
  {
    if steps != [] {
      var before, step := steps[..|steps| - 1], steps[|steps| - 1];
      OnlyPanicsBeat(codec, maxParallel, before);
      var s := Run(codec, maxParallel, before).value;
      match step
      case Reader(event) => HeardBeats(s, event);
      case _ =>
    }
  }

  // ---- terminal frames -----------------------------------------------------------------

  /** The last frame of task `t` is in the queue or was taken from it. */
  predicate LastQueued(sent: seq<Out>, task: Task, t: nat) {
    task.gen.made != [] && FromTask(t, |task.gen.made| - 1, task.gen.made[|task.gen.made| - 1]) in sent
  }

  /** A finished generation whose frames were all offered. */
  predicate Delivered(task: Task) {
    task.gen.step == Ended && Settled(task)
  }

  ghost predicate TerminalsQueued(s: Session) {
    s.channelOpen ==> forall t | 0 <= t < |s.tasks| && Delivered(s.tasks[t]) :: LastQueued(s.sent, s.tasks[t], t)
  }

  lemma OfferQueues(codec: Codec, s: Session, t: nat)
    requires TerminalsQueued(s) && t < |s.tasks| && TaskOk(s.tasks[t]) && CanAct(s, s.tasks[t], Offer)
    ensures TerminalsQueued(Apply(codec, s, Local(t, Offer)))
  {
    var task := s.tasks[t];
    if task.gen.step == Ended && task.offered + 1 == |task.gen.made| {
      LastIsTerminal(task.gen);
    }
  }

  lemma LastIsTerminal(gen: Gen)
    requires GenOk(gen) && gen.step == Ended
    ensures gen.made != [] && gen.made[|gen.made| - 1].Terminal?
  {
  }

  /** Terminal frames are never dropped: while the channel is open, every generation that offered its
      last frame has it in the queue. */
  lemma {:induction false} TerminalIsQueued(codec: Codec, maxParallel: nat, steps: seq<Step>)
    requires Run(codec, maxParallel, steps).Some?
    ensures TerminalsQueued(Run(codec, maxParallel, steps).value)
  {
    if steps != [] {
      var before, step := steps[..|steps| - 1], steps[|steps| - 1];
      TerminalIsQueued(codec, maxParallel, before);
      ReachableOk(codec, maxParallel, before);
      StepQueues(codec, Run(codec, maxParallel, before).value, step);
    }
  }

  lemma StepQueues(codec: Codec, s: Session, step: Step)
    requires TerminalsQueued(s) && TasksOk(s) && Enabled(s, step)
    ensures TerminalsQueued(Apply(codec, s, step))
  {
    match step
    case Reader(event) => HeardQueues(s, event);
    case Local(t, act) => LocalQueues(codec, s, t, act);
    case _ =>
  }

  lemma HeardQueues(s: Session, event: Event)
    requires TerminalsQueued(s)
    ensures TerminalsQueued(Heard(s, event))
  {
    HeardKeeps(s, event);
    var s' := Heard(s, event);
    forall t | 0 <= t < |s'.tasks| && Delivered(s'.tasks[t]) && s.channelOpen
      ensures LastQueued(s.sent, s'.tasks[t], t)
    {
      assert t < |s.tasks|;
      assert Delivered(s.tasks[t]);
    }
  }

  lemma LocalQueues(codec: Codec, s: Session, t: nat, act: Act)
    requires TerminalsQueued(s) && t < |s.tasks| && TaskOk(s.tasks[t]) && CanAct(s, s.tasks[t], act)
    ensures TerminalsQueued(Apply(codec, s, Local(t, act)))
  {
    if act.Offer? {
      OfferQueues(codec, s, t);
    } else {
      UnofferedStays(codec, s, t, act);
    }
  }

  lemma UnofferedStays(codec: Codec, s: Session, t: nat, act: Act)
    requires t < |s.tasks| && TaskOk(s.tasks[t]) && CanAct(s, s.tasks[t], act) && !act.Offer?
    ensures var task' := Moved(codec, s.tasks[t], act);
      Delivered(task') ==> Delivered(s.tasks[t]) && task'.gen == s.tasks[t].gen
  {
  }

  // ---- what the coordinator receives ---------------------------------------------------

  /** The frames of one task among queue items, and their positions in what it made. */
  function FramesOf(outs: seq<Out>, t: nat): seq<Frame> {
    if outs == [] then []
    else
      var last := outs[|outs| - 1];
      var before := FramesOf(outs[..|outs| - 1], t);
      if last.FromTask? && last.t == t then before + [last.frame] else before
  }

  function PositionsOf(outs: seq<Out>, t: nat): seq<nat> {
    if outs == [] then []
    else
      var last := outs[|outs| - 1];
      var before := PositionsOf(outs[..|outs| - 1], t);
      if last.FromTask? && last.t == t then before + [last.i] else before
  }

  predicate Increasing(xs: seq<nat>) {
    forall i, j | 0 <= i < j < |xs| :: xs[i] < xs[j]
  }

  lemma {:induction false} ReceivedIsSubsequence(outs: seq<Out>, tasks: seq<Task>, t: nat)
    requires Carries(outs, tasks) && InOrder(outs) && t < |tasks|
    ensures var ps, fs := PositionsOf(outs, t), FramesOf(outs, t);
      && |ps| == |fs| && Increasing(ps)
      && (forall k | 0 <= k < |ps| :: ps[k] < |tasks[t].gen.made| && fs[k] == tasks[t].gen.made[ps[k]])
  {
    if outs != [] {
      var before, last := outs[..|outs| - 1], outs[|outs| - 1];
      assert Carries(before, tasks) && InOrder(before);
      ReceivedIsSubsequence(before, tasks, t);
      if last.FromTask? && last.t == t {
        forall k | 0 <= k < |PositionsOf(before, t)|
          ensures PositionsOf(before, t)[k] < last.i
        {
          var p := ItemAt(before, t, k);
          assert outs[p] == before[p];
        }
      }
    }
  }

  /** The queue item behind a position. */
  lemma {:induction false} ItemAt(outs: seq<Out>, t: nat, k: nat) returns (p: nat)
    requires k < |PositionsOf(outs, t)|
    ensures p < |outs| && outs[p].FromTask? && outs[p].t == t && outs[p].i == PositionsOf(outs, t)[k]
  {
    p := |outs| - 1;
    if k < |PositionsOf(outs[..p], t)| {
      p := ItemAt(outs[..p], t, k);
    }
  }

  predicate FramesInOrder(fs: seq<Frame>) {
    forall i, j | 0 <= i < j < |fs| ::
      && (fs[i].ProgressFrame? && fs[j].ProgressFrame? ==> fs[i].report.seqNo < fs[j].report.seqNo)
      && (fs[i].Chunk? && fs[j].Chunk? ==> fs[i].seqNo < fs[j].seqNo)
      && !fs[i].Terminal?
  }

  lemma SubsequenceInOrder(gen: Gen, ps: seq<nat>, fs: seq<Frame>)
    requires GenOk(gen) && |ps| == |fs| && Increasing(ps)
    requires forall k | 0 <= k < |ps| :: ps[k] < |gen.made| && fs[k] == gen.made[ps[k]]
    ensures FramesInOrder(fs)
  {
    forall i, j | 0 <= i < j < |fs|
      ensures fs[i].ProgressFrame? && fs[j].ProgressFrame? ==> fs[i].report.seqNo < fs[j].report.seqNo
      ensures fs[i].Chunk? && fs[j].Chunk? ==> fs[i].seqNo < fs[j].seqNo
      ensures !fs[i].Terminal?
    {
      NumbersIncrease(gen.leased, gen.made, ps[i], ps[j]);
    }
  }

  /** In every reachable state, what the writer has taken of a generation keeps its order: progress
      numbers and chunk numbers strictly increase however many frames were dropped, and nothing
      follows a terminal frame. */
  lemma ReceivedInOrder(codec: Codec, maxParallel: nat, steps: seq<Step>, t: nat)
    requires Run(codec, maxParallel, steps).Some? && t < |Run(codec, maxParallel, steps).value.tasks|
    ensures var s := Run(codec, maxParallel, steps).value;
      s.received <= |s.sent| && FramesInOrder(FramesOf(s.sent[..s.received], t))
  {
    ReachableOk(codec, maxParallel, steps);
    var s := Run(codec, maxParallel, steps).value;
    var outs := s.sent[..s.received];
    ReceivedIsSubsequence(outs, s.tasks, t);
    assert TaskOk(s.tasks[t]);
    SubsequenceInOrder(s.tasks[t].gen, PositionsOf(outs, t), FramesOf(outs, t));
  }

  function ChunkNumbers(frames: seq<Frame>): seq<nat> {
    if frames == [] then []
    else
      var last := frames[|frames| - 1];
      var before := ChunkNumbers(frames[..|frames| - 1]);
      if last.Chunk? then before + [last.seqNo] else before
  }

  /** The chunk numbers are those of chunk frames. */
  lemma {:induction false} NumberedFrame(fs: seq<Frame>, k: nat) returns (i: nat)
    requires k < |ChunkNumbers(fs)|
    ensures i < |fs| && fs[i].Chunk? && fs[i].seqNo == ChunkNumbers(fs)[k]
  {
    i := |fs| - 1;
    if k < |ChunkNumbers(fs[..i])| {
      i := NumberedFrame(fs[..i], k);
    }
  }

  /** Chunk numbers received before the last frame, a chunk too, are smaller than its own. */
  lemma NumbersBefore(gen: Gen, ps: seq<nat>, fs: seq<Frame>)
    requires GenOk(gen) && |ps| == |fs| && Increasing(ps) && fs != [] && fs[|fs| - 1].Chunk?
    requires forall k | 0 <= k < |ps| :: ps[k] < |gen.made| && fs[k] == gen.made[ps[k]]
    ensures var n := |fs| - 1; forall m | m in ChunkNumbers(fs[..n]) :: m < fs[n].seqNo
  {
    var n := |fs| - 1;
    var ns := ChunkNumbers(fs[..n]);
    forall k | 0 <= k < |ns|
      ensures ns[k] < fs[n].seqNo
    {
      var i := NumberedFrame(fs[..n], k);
      NumbersIncrease(gen.leased, gen.made, ps[i], ps[n]);
    }
  }

  /** Each chunk carries the delta of its number, and numbers grow. */
  predicate Numbering(gen: Gen, ns: seq<nat>, ds: seq<Delta>) {
    && |ns| == |ds| && Increasing(ns)
    && (forall k | 0 <= k < |ns| :: ns[k] < |gen.deltas| && ds[k] == gen.deltas[ns[k]])
  }

  lemma NumberingSnoc(gen: Gen, ns: seq<nat>, ds: seq<Delta>, m: nat)
    requires Numbering(gen, ns, ds) && m < |gen.deltas| && forall n | n in ns :: n < m
    ensures Numbering(gen, ns + [m], ds + [gen.deltas[m]])
  {
    assert forall i | 0 <= i < |ns| :: ns[i] in ns;
  }

  /** Frames taken from a trace in order carry the deltas their numbers name, and the numbers
      increase. */
  lemma {:induction false} ChunksNamed(gen: Gen, ps: seq<nat>, fs: seq<Frame>)
    requires GenOk(gen) && |ps| == |fs| && Increasing(ps)
    requires forall k | 0 <= k < |ps| :: ps[k] < |gen.made| && fs[k] == gen.made[ps[k]]
    ensures Numbering(gen, ChunkNumbers(fs), ChunksOf(fs))
  {
    if fs != [] {
      var n := |fs| - 1;
      ChunksNamed(gen, ps[..n], fs[..n]);
      if fs[n].Chunk? {
        NumbersBefore(gen, ps, fs);
        ChunkCarries(gen.leased, gen.made, ps[n]);
        assert fs[n].seqNo < |gen.deltas| && gen.deltas[fs[n].seqNo] == fs[n].delta;
        NumberingSnoc(gen, ChunkNumbers(fs[..n]), ChunksOf(fs[..n]), fs[n].seqNo);
        assert ChunksOf(fs) == ChunksOf(fs[..n]) + [fs[n].delta] && ChunkNumbers(fs) == ChunkNumbers(fs[..n]) + [fs[n].seqNo];
      }
    }
  }

  lemma {:induction false} LastAtLeast(xs: seq<nat>)
    requires Increasing(xs)
    ensures xs != [] ==> xs[|xs| - 1] >= |xs| - 1
  {
    if |xs| > 1 {
      LastAtLeast(xs[..|xs| - 1]);
    }
  }

  /** An increasing list without gaps, from 0, is the list of indices. */
  lemma {:induction false} NoGaps(xs: seq<nat>, n: nat)
    requires Increasing(xs) && (forall i | 0 <= i < |xs| :: xs[i] < n) && forall x | 0 <= x < n :: x in xs
    ensures |xs| == n && forall i | 0 <= i < n :: xs[i] == i
  {
    LastAtLeast(xs);
    if n > 0 {
      assert n - 1 in xs;
      var i :| 0 <= i < |xs| && xs[i] == n - 1;
      assert i == |xs| - 1;
      var rest := xs[..i];
      forall x | 0 <= x < n - 1
        ensures x in rest
      {
        assert x in xs;
      }
      NoGaps(rest, n - 1);
    }
  }

  /** When no chunk number is missing, the received chunks are exactly the deltas emitted, and the
      received answer text is exactly the answer text emitted. */
  lemma NothingMissing(codec: Codec, maxParallel: nat, steps: seq<Step>, t: nat)
    requires Run(codec, maxParallel, steps).Some? && t < |Run(codec, maxParallel, steps).value.tasks|
    ensures var s := Run(codec, maxParallel, steps).value;
      s.received <= |s.sent| &&
      var fs, deltas := FramesOf(s.sent[..s.received], t), s.tasks[t].gen.deltas;
      (forall n | 0 <= n < |deltas| :: n in ChunkNumbers(fs)) ==>
        ChunksOf(fs) == deltas && AnswerText(ChunksOf(fs)) == AnswerText(deltas)
  {
    ReachableOk(codec, maxParallel, steps);
    var s := Run(codec, maxParallel, steps).value;
    var outs := s.sent[..s.received];
    ReceivedIsSubsequence(outs, s.tasks, t);
    var gen, ps, fs := s.tasks[t].gen, PositionsOf(outs, t), FramesOf(outs, t);
    assert TaskOk(s.tasks[t]);
    ChunksNamed(gen, ps, fs);
    var ns := ChunkNumbers(fs);
    if forall n | 0 <= n < |gen.deltas| :: n in ns {
      NoGaps(ns, |gen.deltas|);
      assert ChunksOf(fs) == gen.deltas;
    }
  }

  /** In every reachable state each leased task's frames follow the protocol and the throttle. */
  lemma TaskTrace(codec: Codec, maxParallel: nat, steps: seq<Step>, t: nat)
    requires Run(codec, maxParallel, steps).Some? && t < |Run(codec, maxParallel, steps).value.tasks|
    ensures var task := Run(codec, maxParallel, steps).value.tasks[t];
      && ReadAll(task.key.lease.Some?, task.gen.made).Some?
      && (task.key.lease.Some? ==>
            GeneratingIn(task.gen.made)
            <= |task.gen.deltas| / 64 + LastTime(task.gen.times) / 2000)
  {
    ReachableOk(codec, maxParallel, steps);
    var task := Run(codec, maxParallel, steps).value.tasks[t];
    assert TaskOk(task);
    if task.key.lease.Some? {
      TraceThrottle(task.gen);
    }
  }
}
