/** The reader's table changed in place: `track_job`, `cancel_job`, the reaping `retain` and the
    final sweep (coordinator_client.rs), against the session's specification of each. */
module JobTable {
  import opened Text
  import L = LeaseSession

  class Table {
    var tasks: seq<L.Task>
    var jobs: map<L.JobKey, nat>

    ghost predicate Valid()
      reads this
    {
      forall k | k in jobs :: jobs[k] < |tasks|
    }

    constructor ()
      ensures Valid() && tasks == [] && jobs == map[]
    {
      tasks, jobs := [], map[];
    }

    /** `t` is the task just spawned, wherever it is kept. */
    method TrackJob(key: L.JobKey, t: nat)
      requires Valid()
      modifies this
      ensures (tasks, jobs) == L.TrackJob(old(tasks), old(jobs), key, t) && (t < |tasks| ==> Valid())
    {
      TasksOfNone(jobs, key);
      if key in jobs {
        var replaced := jobs[key];
        TasksOfMore(jobs, {}, key);
        jobs := jobs[key := t];
        tasks := tasks[replaced := L.Aborted(tasks[replaced])];
        assert tasks == L.AbortAll(old(tasks), {replaced});
      } else {
        jobs := jobs[key := t];
        assert tasks == L.AbortAll(old(tasks), {});
      }
    }

    method CancelJob(job: string, lease: Option<string>) returns (found: bool)
      requires Valid()
      modifies this
      ensures Valid() && (tasks, jobs) == L.CancelJob(old(tasks), old(jobs), job, lease)
      ensures found <==> exists k | k in old(jobs) :: L.Names(k, job, lease)
    {
      var targets := L.Targets(jobs, job, lease);
      AbortEntries(targets);
      found := targets != {};
      assert found ==> exists k :: k in targets;
    }

    /** Remove each entry and abort its heartbeat and its task. */
    method AbortEntries(targets: set<L.JobKey>)
      requires Valid() && targets <= jobs.Keys
      modifies this
      ensures Valid() && jobs == old(jobs) - targets
      ensures tasks == L.AbortAll(old(tasks), L.TasksOf(old(jobs), targets))
    {
      var left := targets;
      ghost var done: set<L.JobKey> := {};
      while left != {}
        invariant done + left == targets && done !! left && Valid()
        invariant jobs == old(jobs) - done && Touched(L.Aborted, old(tasks), L.TasksOf(old(jobs), done), tasks)
        decreases |left|
      {
        var key :| key in left;
        var t := jobs[key];
        jobs := jobs - {key};
        TouchMore(L.Aborted, old(tasks), L.TasksOf(old(jobs), done), tasks, t);
        tasks := tasks[t := L.Aborted(tasks[t])];
        TasksOfMore(old(jobs), done, key);
        left, done := left - {key}, done + {key};
      }
      assert done == targets && tasks == L.AbortAll(old(tasks), L.TasksOf(old(jobs), done));
    }

    /** Forget the entries whose task has ended, and stop their heartbeats. */
    method Reap()
      requires Valid()
      modifies this
      ensures Valid() && (tasks, jobs) == L.ReapJobs(old(tasks), old(jobs))
    {
      RetainOthers(L.Finished(tasks, jobs));
    }

    /** `retain`: each ended entry has its heartbeat aborted and is dropped. */
    method RetainOthers(ended: set<L.JobKey>)
      requires Valid() && ended <= jobs.Keys
      modifies this
      ensures Valid() && jobs == old(jobs) - ended
      ensures tasks == L.StopBeats(old(tasks), L.TasksOf(old(jobs), ended))
    {
      var left := ended;
      ghost var done: set<L.JobKey> := {};
      while left != {}
        invariant done + left == ended && done !! left && Valid()
        invariant jobs == old(jobs) - done && Touched(L.Quiet, old(tasks), L.TasksOf(old(jobs), done), tasks)
        decreases |left|
      {
        var key :| key in left;
        var t := jobs[key];
        jobs := jobs - {key};
        TouchMore(L.Quiet, old(tasks), L.TasksOf(old(jobs), done), tasks, t);
        tasks := tasks[t := L.Quiet(tasks[t])];
        TasksOfMore(old(jobs), done, key);
        left, done := left - {key}, done + {key};
      }
      assert done == ended && tasks == L.StopBeats(old(tasks), L.TasksOf(old(jobs), done));
    }

    /** After the loop every remaining entry is aborted. */
    method CloseAll()
      requires Valid()
      modifies this
      ensures Valid() && jobs == map[] && tasks == L.AbortAll(old(tasks), L.TasksOf(old(jobs), old(jobs).Keys))
    {
      AbortEntries(jobs.Keys);
    }

    method Spawn(key: L.JobKey)
      requires Valid()
      modifies this
      ensures Valid()
      ensures var (tracked, after) := L.TrackJob(old(tasks), old(jobs), key, |old(tasks)|);
        tasks == tracked + [L.Spawned(key)] && jobs == after
    {
      var task := L.Spawned(key);
      SpawnFirst(tasks, jobs, task);
      tasks := tasks + [task];
      TrackJob(key, |tasks| - 1);
    }

    /** What the reader loop does on each event is the session's step on the table: a job frame spawns
        its task and then tracks it. */
    method Hear(event: L.Event, ghost s: L.Session)
      requires Valid() && s.tasks == tasks && s.jobs == jobs
      modifies this
      ensures Valid() && tasks == L.Heard(s, event).tasks && jobs == L.Heard(s, event).jobs
    {
      match event {
        case JobFrame(key) =>
          Spawn(key);
        case CancelFrame(job, lease) =>
          var _ := CancelJob(job, lease);
        case Reap =>
          Reap();
        case Close =>
          CloseAll();
      }
    }
  }

  /** Some tasks were changed, and the others left alone. */
  predicate Touched(f: L.Task -> L.Task, before: seq<L.Task>, which: set<nat>, after: seq<L.Task>) {
    |after| == |before| && forall i | 0 <= i < |before| :: after[i] == if i in which then f(before[i]) else before[i]
  }

  lemma TouchMore(f: L.Task -> L.Task, before: seq<L.Task>, which: set<nat>, after: seq<L.Task>, t: nat)
    requires Touched(f, before, which, after) && t < |before| && f(f(before[t])) == f(before[t])
    ensures Touched(f, before, which + {t}, after[t := f(after[t])])
  {
  }

  /** Aborting earlier tasks and adding one may be done in either order. */
  lemma SpawnFirst(tasks: seq<L.Task>, jobs: map<L.JobKey, nat>, task: L.Task)
    requires forall k | k in jobs :: jobs[k] < |tasks|
    ensures var (before, after) := (L.TrackJob(tasks, jobs, task.key, |tasks|), L.TrackJob(tasks + [task], jobs, task.key, |tasks|));
      after == (before.0 + [task], before.1)
  {
    var which := L.TasksOf(jobs, {task.key});
    assert forall i | i in which :: i < |tasks|;
    assert L.AbortAll(tasks + [task], which) == L.AbortAll(tasks, which) + [task];
  }

  lemma TasksOfNone(jobs: map<L.JobKey, nat>, key: L.JobKey)
    ensures key !in jobs ==> L.TasksOf(jobs, {key}) == {}
  {
  }

  lemma TasksOfMore(jobs: map<L.JobKey, nat>, keys: set<L.JobKey>, key: L.JobKey)
    requires key in jobs
    ensures L.TasksOf(jobs, keys + {key}) == L.TasksOf(jobs, keys) + {jobs[key]}
    ensures keys == {} ==> L.TasksOf(jobs, {key}) == {jobs[key]}
  {
    assert {} + {key} == {key};
  }
}
