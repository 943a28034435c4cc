/** Which jobs a wake-up starts and which it notes as late, and what one run leaves behind. */
module MaintenanceDispatch {
  import opened Common
  import opened MaintenanceLoop
  import opened MaintenanceLaws

  // Known, enabled, idle, and its interval has passed since the last run
  predicate ShouldStart(s: System, name: string, now: int) {
    && name in s.jobs && s.jobs[name].enabled && s.jobs[name].lockedBy.None?
    && match s.jobs[name].lastRun
       case None => true
       case Some(last) => now - last >= s.jobs[name].interval
  }

  // Due like that but in flight, begun a whole interval ago, and not noted yet
  predicate ShouldNote(s: System, name: string, now: int) {
    && name in s.jobs && s.jobs[name].enabled && s.jobs[name].lockedBy.Some?
    && (match s.jobs[name].lastRun
        case None => true
        case Some(last) => now - last >= s.jobs[name].interval)
    && !s.jobs[name].overlapNoted
    && match s.jobs[name].startedAt
       case None => false
       case Some(start) => now - start >= s.jobs[name].interval
  }

  function Noted(job: Job): Job {
    Job(job.interval, job.enabled, job.lastRun, job.lastSuccess, Some(Overlapped), job.total, job.succeeded, job.failed,
        job.overlaps + 1, job.lockedBy, job.startedAt, true)
  }

  function TasksSince(before: map<nat, Task>, after: map<nat, Task>, name: string): set<nat> {
    set t | t in after && t !in before && after[t].job == name
  }

  function NewTasks(s: System, e: System, name: string): set<nat> {
    TasksSince(s.tasks, e.tasks, name)
  }

  ghost predicate Numbered(s: System) {
    forall t | t in s.tasks :: t < s.next
  }

  ghost predicate StartedDue(s: System, e: System, names: seq<string>, now: int) {
    forall name :: |NewTasks(s, e, name)| == if name in names && ShouldStart(s, name, now) then 1 else 0
  }

  ghost predicate NotedLate(s: System, jobs: map<string, Job>, names: seq<string>, now: int) {
    && jobs.Keys == s.jobs.Keys
    && (forall name | name in s.jobs ::
          jobs[name] == if name in names && ShouldNote(s, name, now) then Noted(s.jobs[name]) else s.jobs[name])
  }

  ghost predicate OnlyAdds(s: System, e: System) {
    && e.next >= s.next && Numbered(e)
    && (forall t | t in s.tasks :: t in e.tasks && e.tasks[t] == s.tasks[t])
    && (forall t | t in e.tasks && t !in s.tasks :: e.tasks[t].at == Waiting)
  }

  // What the wake-up has done after looking at these names
  ghost predicate Looked(s: System, e: System, names: seq<string>, now: int) {
    && e == s.(jobs := e.jobs, tasks := e.tasks, next := e.next)
    && OnlyAdds(s, e)
    && StartedDue(s, e, names, now)
    && NotedLate(s, e.jobs, names, now)
  }

  lemma LookNowhere(s: System, now: int)
    requires Numbered(s)
    ensures Looked(s, s, [], now)
  {
    forall name
      ensures |NewTasks(s, s, name)| == 0
    {
      assert NewTasks(s, s, name) == {};
    }
  }

  lemma SpawnOnlyAdds(s: System, e: System, name: string)
    requires OnlyAdds(s, e) && Numbered(s)
    ensures OnlyAdds(s, Spawned(e, name))
  {
  }

  lemma OneTaskMore(before: map<nat, Task>, after: map<nat, Task>, t: nat, task: Task, name: string)
    requires t !in before && t !in after
    ensures |TasksSince(before, after[t := task], name)| == |TasksSince(before, after, name)| + (if task.job == name then 1 else 0)
  {
    var had := TasksSince(before, after, name);
    assert TasksSince(before, after[t := task], name) == if task.job == name then had + {t} else had;
  }

  lemma SpawnAddsOne(s: System, e: System, name: string, other: string)
    requires Numbered(e) && Numbered(s) && e.next >= s.next
    ensures |NewTasks(s, Spawned(e, name), other)| == |NewTasks(s, e, other)| + (if other == name then 1 else 0)
  {
    OneTaskMore(s.tasks, e.tasks, e.next, Task(name, Waiting), other);
  }

  lemma LookAndStart(s: System, e: System, names: seq<string>, name: string, now: int)
    requires OnlyAdds(s, e) && Numbered(s) && StartedDue(s, e, names, now)
    requires name !in names && ShouldStart(s, name, now)
    ensures StartedDue(s, Spawned(e, name), names + [name], now)
  {
    forall other
      ensures |NewTasks(s, Spawned(e, name), other)| == if other in names + [name] && ShouldStart(s, other, now) then 1 else 0
    {
      SpawnAddsOne(s, e, name, other);
    }
  }

  lemma LookAndLeave(s: System, e: System, f: System, names: seq<string>, name: string, now: int)
    requires StartedDue(s, e, names, now) && f.tasks == e.tasks && !ShouldStart(s, name, now)
    ensures StartedDue(s, f, names + [name], now)
  {
    forall other
      ensures |NewTasks(s, f, other)| == if other in names + [name] && ShouldStart(s, other, now) then 1 else 0
    {
      assert NewTasks(s, f, other) == NewTasks(s, e, other);
    }
  }

  lemma LookAndNote(s: System, e: System, names: seq<string>, name: string, now: int)
    requires NotedLate(s, e.jobs, names, now) && name !in names
    ensures NotedLate(s, TickJob(e, name, now).jobs, names + [name], now)
  {
    var jobs := TickJob(e, name, now).jobs;
    if name in s.jobs {
      assert e.jobs[name] == s.jobs[name];
      assert jobs[name] == if ShouldNote(s, name, now) then Noted(s.jobs[name]) else s.jobs[name];
    }
  }

  lemma LookAtOne(s: System, e: System, names: seq<string>, name: string, now: int)
    requires Looked(s, e, names, now) && Numbered(s) && name !in names
    ensures Looked(s, TickJob(e, name, now), names + [name], now)
  {
    LookAndNote(s, e, names, name, now);
    if ShouldStart(s, name, now) {
      assert e.jobs[name] == s.jobs[name];
      LookAndStart(s, e, names, name, now);
      SpawnOnlyAdds(s, e, name);
    } else {
      assert TickJob(e, name, now).tasks == e.tasks && TickJob(e, name, now).next == e.next;
      LookAndLeave(s, e, TickJob(e, name, now), names, name, now);
    }
  }

  lemma {:induction false} LookAtAll(s: System, names: seq<string>, now: int)
    requires Numbered(s) && Distinct(names)
    ensures Looked(s, TickAll(s, names, now), names, now)
    decreases |names|
  {
    if names == [] {
      LookNowhere(s, now);
    } else {
      var n := |names| - 1;
      LookAtAll(s, names[..n], now);
      LookAtOne(s, TickAll(s, names[..n], now), names[..n], names[n], now);
      assert names == names[..n] + [names[n]];
    }
  }

  /** One wake-up starts exactly one new task for each job that should start, and none for any other; it
    * notes exactly the runs that should be noted, and changes nothing else. */
  lemma WakeUpStartsExactlyTheDue(s: System, now: int, name: string)
    requires Locks(s) && Distinct(s.order)
    ensures var e := Next(s, Tick(now));
            && |NewTasks(s, e, name)| == (if name in s.order && ShouldStart(s, name, now) then 1 else 0)
            && (forall t | t in e.tasks && t !in s.tasks :: e.tasks[t].at == Waiting)
            && (forall t | t in s.tasks :: t in e.tasks && e.tasks[t] == s.tasks[t])
            && e.jobs.Keys == s.jobs.Keys
            && (name in s.jobs ==>
                  e.jobs[name] == if name in s.order && ShouldNote(s, name, now) then Noted(s.jobs[name]) else s.jobs[name])
            && e.global == s.global && e.file == s.file && e.log == s.log && e.saved == s.saved
  {
    forall t | t in s.tasks
      ensures t < s.next
    {
      assert TaskFits(s, t);
    }
    LookAtAll(s, s.order, now);
    var all := TickAll(s, s.order, now);
    assert NewTasks(s, Next(s, Tick(now)), name) == NewTasks(s, all, name);
  }

  lemma TickKeepsOrder(s: System, names: seq<string>, now: int)
    ensures TickAll(s, names, now).order == s.order
    decreases |names|
  {
  }

  lemma {:induction false} OrderStays(s: System, steps: seq<Step>)
    requires Runs(s, steps)
    ensures After(s, steps).order == s.order
    decreases |steps|
  {
    if steps != [] {
      var before := After(s, steps[..|steps| - 1]);
      OrderStays(s, steps[..|steps| - 1]);
      if steps[|steps| - 1].Tick? {
        TickKeepsOrder(before, before.order, steps[|steps| - 1].now);
      }
    }
  }

  /** So a wake-up in any run leaves no idle job waiting whose interval has passed, and starts no job that is
    * disabled, in flight, or early. */
  lemma DueJobsAreStarted(s: System, steps: seq<Step>, now: int, name: string)
    requires Fresh(s) && Runs(s, steps) && Distinct(s.order)
    ensures var d := After(s, steps);
            var started := exists t :: t in Next(d, Tick(now)).tasks && t !in d.tasks && Next(d, Tick(now)).tasks[t].job == name;
            started <==>
              && name in s.order && name in d.jobs && d.jobs[name].enabled && d.jobs[name].lockedBy.None?
              && (d.jobs[name].lastRun.Some? ==> now - d.jobs[name].lastRun.value >= d.jobs[name].interval)
  {
    AfterIsSafe(s, steps);
    OrderStays(s, steps);
    var d := After(s, steps);
    var e := Next(d, Tick(now));
    WakeUpStartsExactlyTheDue(d, now, name);
    if |NewTasks(d, e, name)| == 1 {
      var t :| t in NewTasks(d, e, name);
      assert t in e.tasks && t !in d.tasks && e.tasks[t].job == name;
    } else {
      assert NewTasks(d, e, name) == {};
      forall t | t in e.tasks && t !in d.tasks
        ensures e.tasks[t].job != name
      {
        assert t !in NewTasks(d, e, name);
      }
    }
  }

  /** A run that is asked for by hand is one new task, whatever the job's interval, switch or lock. */
  lemma AskedRunIsStarted(s: System, name: string, other: string)
    requires Locks(s) && Enabled(s, RunOnce(name))
    ensures var e := Next(s, RunOnce(name));
            && |NewTasks(s, e, other)| == (if other == name then 1 else 0)
            && (forall t | t in e.tasks && t !in s.tasks :: e.tasks[t].at == Waiting)
            && (forall t | t in s.tasks :: t in e.tasks && e.tasks[t] == s.tasks[t])
            && e.jobs == s.jobs && e.global == s.global && e.file == s.file && e.log == s.log && e.saved == s.saved
  {
    forall t | t in s.tasks
      ensures t < s.next
    {
      assert TaskFits(s, t);
    }
    SpawnAddsOne(s, s, name, other);
    assert NewTasks(s, s, other) == {};
  }

  // ---------- a new process ----------

  // A timestamp of this job in this block of the file, if the file is there and read
  function StampOf(file: Option<File>, read: bool, block: File -> Block, name: string): Option<int> {
    if !read || file.None? || block(file.value).Malformed? || name !in block(file.value).stamps then None
    else Some(block(file.value).stamps[name])
  }

  /** After a restart nothing runs and nothing holds a lock; every job has its settings, the two stamps that
    * the file has for it, and counters at zero. */
  lemma RestartFinds(s: System, read: bool, name: string)
    ensures var e := Next(s, Restart(read));
            && e.tasks == map[] && e.global.None? && e.file == s.file && e.order == s.order && e.jobs.Keys == s.jobs.Keys
            && (name in s.jobs ==>
                  e.jobs[name] == Job(s.jobs[name].interval, s.jobs[name].enabled,
                                      StampOf(s.file, read, (f: File) => f.runs, name),
                                      StampOf(s.file, read, (f: File) => f.successes, name),
                                      None, 0, 0, 0, 0, None, None, false))
  {
  }

  // ---------- one run ----------

  /** The beginning of a run: it holds its job's lock, then the one lock of all handlers, and has noted when it
    * began; nothing else has changed. */
  lemma RunBegins(s: System, task: nat, now: int)
    requires Enabled(s, TakeJobLock(task)) && s.global.None?
    ensures var name, job := s.tasks[task].job, s.jobs[s.tasks[task].job];
            var queued := Next(s, TakeJobLock(task));
            && job.lockedBy.None? && s.tasks[task].at == Waiting
            && Enabled(queued, Begin(task, now))
            && var begun := Next(queued, Begin(task, now));
            && begun.jobs.Keys == s.jobs.Keys && begun.tasks.Keys == s.tasks.Keys
            && begun.tasks[task] == Task(name, Running) && begun.global == Some(task)
            && begun.jobs[name] == Job(job.interval, job.enabled, job.lastRun, job.lastSuccess, job.outcome, job.total,
                                       job.succeeded, job.failed, job.overlaps, Some(task), Some(now), job.overlapNoted)
            && (forall other | other in s.jobs && other != name :: begun.jobs[other] == s.jobs[other])
            && (forall other | other in s.tasks && other != task :: begun.tasks[other] == s.tasks[other])
            && begun.file == s.file && begun.log == s.log && begun.saved == s.saved
  {
  }

  /** A run of a job that has no handler ends as failed, holding nothing and saving nothing. */
  lemma RunWithoutHandlerLeaves(s: System, task: nat, now: int)
    requires Enabled(s, EndWithoutHandler(task, now))
    ensures var name, job := s.tasks[task].job, s.jobs[s.tasks[task].job];
            var e := Next(s, EndWithoutHandler(task, now));
            && e.global.None? && e.tasks == s.tasks - {task} && e.file == s.file && e.saved == s.saved
            && e.log == s.log + [Ended(name, false, now)] && e.jobs.Keys == s.jobs.Keys
            && e.jobs[name] == Job(job.interval, job.enabled, Some(now), job.lastSuccess, Some(Outcome.Failed),
                                   job.total + 1, job.succeeded, job.failed + 1, job.overlaps, None, None, false)
            && (forall other | other in s.jobs && other != name :: e.jobs[other] == s.jobs[other])
  {
  }

  /** A run that is cancelled before its handler began gives back the lock it holds, and leaves no other trace. */
  lemma CancelledRunLeaves(s: System, task: nat)
    requires Enabled(s, CancelQueued(task)) && Locks(s)
    ensures var e := Next(s, CancelQueued(task));
            && e.tasks == s.tasks - {task} && e.jobs.Keys == s.jobs.Keys && e.global == s.global && e.file == s.file
            && e.log == s.log && e.saved == s.saved
            && forall name | name in s.jobs ::
                 e.jobs[name] == (if s.jobs[name].lockedBy == Some(task) then s.jobs[name].(lockedBy := None) else s.jobs[name])
  {
    assert TaskFits(s, task);
  }

  /** What the end of a handler and the save after it leave: the counters, outcome and stamps of this job, as
    * its handler ended; both locks free; every other job untouched. */
  lemma RunLeaves(s: System, task: nat, result: Verdict, now: int, ok: bool)
    requires Enabled(s, End(task, result, now))
    ensures var name, job := s.tasks[task].job, s.jobs[s.tasks[task].job];
            && Enabled(Next(s, End(task, result, now)), Save(task, ok))
            && var e := Next(Next(s, End(task, result, now)), Save(task, ok));
            && e.jobs.Keys == s.jobs.Keys && e.tasks == s.tasks - {task} && e.global.None?
            && e.jobs[name]
               == Job(job.interval, job.enabled, Some(now), if result == Returned then Some(now) else job.lastSuccess,
                      match result {
                        case Returned => Some(Completed)
                        case ReturnedSkipped => Some(Outcome.Skipped)
                        case Raised => Some(Outcome.Failed)
                        case Cancelled => job.outcome
                      },
                      job.total + 1, job.succeeded + (if result == Returned then 1 else 0),
                      job.failed + (if result == Raised then 1 else 0), job.overlaps, None, None, false)
            && (forall other | other in s.jobs && other != name :: e.jobs[other] == s.jobs[other])
            && e.log == s.log + [Ended(name, result == Returned, now)]
            && e.saved == (if ok then e.log else s.saved)
            && (!ok ==> e.file == s.file)
            && (ok ==> forall other | other in e.jobs :: StampsIn(e.file, other) == Stamps(e.jobs[other].lastRun, e.jobs[other].lastSuccess))
  {
  }
}
