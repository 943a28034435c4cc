/** What the maintenance loop keeps in every run: one handler at a time, one run of a job in flight,
  * overlaps counted once and only when real, and a health probe that tells how the last run ended. */
module MaintenanceLaws {
  import opened Common
  import opened MaintenanceLoop

  predicate Active(at: Stage) {
    at == Running || at == Saving
  }

  // The invariant

  ghost predicate TaskFits(s: System, t: nat)
    requires t in s.tasks
  {
    && t < s.next && s.tasks[t].job in s.jobs
    && (s.tasks[t].at != Waiting <==> s.jobs[s.tasks[t].job].lockedBy == Some(t))
    && (Active(s.tasks[t].at) <==> s.global == Some(t))
  }

  ghost predicate JobFits(s: System, name: string)
    requires name in s.jobs
  {
    var job := s.jobs[name];
    && (job.lockedBy.Some? ==> job.lockedBy.value in s.tasks && s.tasks[job.lockedBy.value].job == name)
    && (job.startedAt.Some? <==>
          s.global.Some? && s.global.value in s.tasks && s.tasks[s.global.value].job == name)
    && (job.overlapNoted ==> job.startedAt.Some?)
  }

  ghost predicate Locks(s: System) {
    && (forall t :: t in s.tasks ==> TaskFits(s, t))
    && (forall name :: name in s.jobs ==> JobFits(s, name))
    && (s.global.Some? ==> s.global.value in s.tasks)
  }

  function TimeOf(e: Option<Ended>): Option<int> {
    if e.Some? then Some(e.value.at) else None
  }

  /** The stamps a log of ended runs gives a job. */
  function StampsFrom(log: seq<Ended>, name: string): Stamps {
    Stamps(TimeOf(LastEnd(log, name)), TimeOf(LastOk(log, name)))
  }

  function StampsOf(job: Job): Stamps {
    Stamps(job.lastRun, job.lastSuccess)
  }

  /** Each stamp is lost, or it is the one the log gives the job. */
  predicate Fits(stamps: Stamps, log: seq<Ended>, name: string) {
    && (stamps.run.Some? ==> stamps.run == TimeOf(LastEnd(log, name)))
    && (stamps.success.Some? ==> stamps.success == TimeOf(LastOk(log, name)))
  }

  ghost predicate Stamped(s: System) {
    && (forall name :: name in s.jobs ==> Fits(StampsOf(s.jobs[name]), s.log, name))
    && (forall name :: name in s.jobs ==> Fits(StampsIn(s.file, name), s.saved, name))
  }

  ghost predicate Inv(s: System) {
    Locks(s) && Stamped(s)
  }

  // The tick

  lemma TickJobLocks(s: System, name: string, now: int)
    requires Locks(s)
    ensures Locks(TickJob(s, name, now))
  {
    var next := TickJob(s, name, now);
    forall t | t in next.tasks
      ensures TaskFits(next, t)
    {
      if t in s.tasks {
        assert TaskFits(s, t);
      } else {
        forall other | other in s.jobs
          ensures s.jobs[other].lockedBy != Some(t)
        {
          assert JobFits(s, other);
        }
      }
    }
    forall other | other in next.jobs
      ensures JobFits(next, other)
    {
      assert JobFits(s, other);
      assert s.global.Some? ==> TaskFits(s, s.global.value);
    }
  }

  /** A wake-up changes no stamps, no file and no record. */
  lemma TickJobStamps(s: System, name: string, now: int)
    ensures TickJob(s, name, now).jobs.Keys == s.jobs.Keys
    ensures forall other :: other in s.jobs ==>
      && TickJob(s, name, now).jobs[other].lastRun == s.jobs[other].lastRun
      && TickJob(s, name, now).jobs[other].lastSuccess == s.jobs[other].lastSuccess
    ensures TickJob(s, name, now).(jobs := s.jobs, tasks := s.tasks, next := s.next) == s
  {
  }

  lemma {:induction false} TickIsSafe(s: System, names: seq<string>, now: int)
    requires Inv(s)
    ensures Inv(TickAll(s, names, now)) && TickAll(s, names, now).clock == s.clock
    decreases |names|
  {
    if names != [] {
      var n := |names| - 1;
      TickIsSafe(s, names[..n], now);
      TickJobLocks(TickAll(s, names[..n], now), names[n], now);
      TickJobStamps(TickAll(s, names[..n], now), names[n], now);
    }
  }

  // The other steps

  lemma SpawnIsSafe(s: System, name: string)
    requires Inv(s) && name in s.jobs
    ensures Inv(Spawned(s, name))
  {
    var next := Spawned(s, name);
    forall t | t in next.tasks
      ensures TaskFits(next, t)
    {
      if t in s.tasks {
        assert TaskFits(s, t);
      } else {
        assert JobFits(s, name);
      }
    }
    forall other | other in next.jobs
      ensures JobFits(next, other)
    {
      assert JobFits(s, other);
    }
  }

  lemma TakeLockIsSafe(s: System, task: nat)
    requires Inv(s) && Enabled(s, TakeJobLock(task))
    ensures Inv(Next(s, TakeJobLock(task)))
  {
    var next := Next(s, TakeJobLock(task));
    forall t | t in next.tasks
      ensures TaskFits(next, t)
    {
      assert TaskFits(s, t) && TaskFits(s, task);
    }
    forall other | other in next.jobs
      ensures JobFits(next, other)
    {
      assert JobFits(s, other);
    }
  }

  lemma BeginIsSafe(s: System, task: nat, now: int)
    requires Inv(s) && Enabled(s, Begin(task, now))
    ensures Inv(Next(s, Begin(task, now)))
  {
    var next := Next(s, Begin(task, now));
    forall t | t in next.tasks
      ensures TaskFits(next, t)
    {
      assert TaskFits(s, t) && TaskFits(s, task);
    }
    forall other | other in next.jobs
      ensures JobFits(next, other)
    {
      assert JobFits(s, other);
    }
  }

  lemma EndedSnoc(log: seq<Ended>, e: Ended, name: string)
    ensures LastEnd(log + [e], name) == if e.job == name then Some(e) else LastEnd(log, name)
    ensures LastOk(log + [e], name) == if e.job == name && e.ok then Some(e) else LastOk(log, name)
  {
    assert (log + [e])[..|log|] == log;
  }

  lemma EndKeepsLocks(s: System, task: nat, result: Verdict, now: int)
    requires Locks(s) && Enabled(s, End(task, result, now))
    ensures Locks(EndRun(s, task, result, now))
  {
    var next := EndRun(s, task, result, now);
    forall t | t in next.tasks
      ensures TaskFits(next, t)
    {
      assert TaskFits(s, t) && TaskFits(s, task);
    }
    forall other | other in next.jobs
      ensures JobFits(next, other)
    {
      assert JobFits(s, other);
    }
  }

  lemma EndKeepsStamps(s: System, task: nat, result: Verdict, now: int)
    requires Stamped(s) && Enabled(s, End(task, result, now))
    ensures Stamped(EndRun(s, task, result, now))
  {
    var next := EndRun(s, task, result, now);
    forall other | other in next.jobs
      ensures Fits(StampsOf(next.jobs[other]), next.log, other)
    {
      assert Fits(StampsOf(s.jobs[other]), s.log, other);
      EndedSnoc(s.log, Ended(s.tasks[task].job, result == Returned, now), other);
    }
  }

  lemma EndIsSafe(s: System, task: nat, result: Verdict, now: int)
    requires Inv(s) && Enabled(s, End(task, result, now))
    ensures Inv(EndRun(s, task, result, now))
  {
    EndKeepsLocks(s, task, result, now);
    EndKeepsStamps(s, task, result, now);
  }

  lemma LeaveIsSafe(s: System, task: nat)
    requires Inv(s) && task in s.tasks && Active(s.tasks[task].at) && s.tasks[task].job in s.jobs
    ensures Inv(Leave(s, task))
  {
    var next := Leave(s, task);
    assert TaskFits(s, task);
    forall t | t in next.tasks
      ensures TaskFits(next, t)
    {
      assert TaskFits(s, t);
    }
    forall other | other in next.jobs
      ensures JobFits(next, other)
    {
      assert JobFits(s, other);
    }
  }

  lemma SaveIsSafe(s: System, task: nat, ok: bool)
    requires Inv(s) && Enabled(s, Save(task, ok))
    ensures Inv(Next(s, Save(task, ok)))
  {
    var mid := if ok then s.(file := Some(FileOf(s.jobs)), saved := s.log) else s;
    assert Locks(mid) by {
      forall t | t in mid.tasks
        ensures TaskFits(mid, t)
      {
        assert TaskFits(s, t);
      }
      forall other | other in mid.jobs
        ensures JobFits(mid, other)
      {
        assert JobFits(s, other);
      }
    }
    assert Stamped(mid) by {
      forall name | name in mid.jobs
        ensures Fits(StampsIn(mid.file, name), mid.saved, name)
      {
        assert Fits(StampsOf(s.jobs[name]), s.log, name) && Fits(StampsIn(s.file, name), s.saved, name);
      }
    }
    LeaveIsSafe(mid, task);
  }

  lemma CancelIsSafe(s: System, task: nat)
    requires Inv(s) && Enabled(s, CancelQueued(task))
    ensures Inv(Next(s, CancelQueued(task)))
  {
    var next := Next(s, CancelQueued(task));
    assert TaskFits(s, task);
    forall t | t in next.tasks
      ensures TaskFits(next, t)
    {
      assert TaskFits(s, t);
    }
    forall other | other in next.jobs
      ensures JobFits(next, other)
    {
      assert JobFits(s, other);
    }
  }

  lemma {:induction false} TickAllKeys(s: System, names: seq<string>, now: int)
    ensures TickAll(s, names, now).jobs.Keys == s.jobs.Keys
    decreases |names|
  {
    if names != [] {
      TickAllKeys(s, names[..|names| - 1], now);
      TickJobStamps(TickAll(s, names[..|names| - 1], now), names[|names| - 1], now);
    }
  }

  lemma ClockMoves(s: System, now: int)
    requires Inv(s)
    ensures Inv(s.(clock := now))
  {
    var next := s.(clock := now);
    forall t | t in next.tasks
      ensures TaskFits(next, t)
    {
      assert TaskFits(s, t);
    }
    forall other | other in next.jobs
      ensures JobFits(next, other)
    {
      assert JobFits(s, other);
    }
  }

  lemma TickStepIsSafe(s: System, now: int)
    requires Inv(s) && Enabled(s, Tick(now))
    ensures Inv(Next(s, Tick(now)))
  {
    TickIsSafe(s, s.order, now);
    ClockMoves(TickAll(s, s.order, now), now);
  }

  lemma RestartIsSafe(s: System, read: bool)
    requires Inv(s)
    ensures Inv(Next(s, Restart(read)))
  {
    var next := Next(s, Restart(read));
    forall name | name in next.jobs
      ensures JobFits(next, name) && Fits(StampsOf(next.jobs[name]), next.log, name)
    {
      assert Fits(StampsIn(s.file, name), s.saved, name);
    }
  }

  lemma WearIsSafe(s: System, left: Option<File>)
    requires Inv(s) && Enabled(s, Wear(left))
    ensures Inv(Next(s, Wear(left)))
  {
    var next := Next(s, Wear(left));
    forall name | name in next.jobs
      ensures JobFits(next, name) && Fits(StampsIn(left, name), next.saved, name)
    {
      assert JobFits(s, name) && Fits(StampsIn(s.file, name), s.saved, name);
    }
    forall t | t in next.tasks
      ensures TaskFits(next, t)
    {
      assert TaskFits(s, t);
    }
  }

  lemma NextIsSafe(s: System, step: Step)
    requires Inv(s) && Enabled(s, step)
    ensures Inv(Next(s, step))
  {
    match step
    case Tick(now) => TickStepIsSafe(s, now);
    case RunOnce(job) => SpawnIsSafe(s, job);
    case TakeJobLock(task) => TakeLockIsSafe(s, task);
    case Begin(task, now) => BeginIsSafe(s, task, now);
    case End(task, result, now) => EndIsSafe(s, task, result, now);
    case EndWithoutHandler(task, now) =>
      EndIsSafe(s, task, Raised, now);
      LeaveIsSafe(EndRun(s, task, Raised, now), task);
    case Save(task, ok) => SaveIsSafe(s, task, ok);
    case CancelQueued(task) => CancelIsSafe(s, task);
    case Restart(read) => RestartIsSafe(s, read);
    case Wear(left) => WearIsSafe(s, left);
  }

  lemma NextKeepsJobs(s: System, step: Step)
    requires Enabled(s, step)
    ensures Next(s, step).jobs.Keys == s.jobs.Keys
  {
    if step.Tick? {
      TickAllKeys(s, s.order, step.now);
    }
  }

  lemma FreshIsSafe(s: System)
    requires Fresh(s)
    ensures Inv(s)
  {
    forall name | name in s.jobs
      ensures JobFits(s, name) && Fits(StampsOf(s.jobs[name]), s.log, name)
    {
      assert s.jobs[name] == Loaded(s.jobs[name], Stamps(None, None));
    }
  }

  lemma {:induction false} AfterIsSafe(s: System, steps: seq<Step>)
    requires Fresh(s) && Runs(s, steps)
    ensures Inv(After(s, steps)) && After(s, steps).jobs.Keys == s.jobs.Keys
    decreases |steps|
  {
    if steps == [] {
      FreshIsSafe(s);
    } else {
      var n := |steps| - 1;
      AfterIsSafe(s, steps[..n]);
      NextIsSafe(After(s, steps[..n]), steps[n]);
      NextKeepsJobs(After(s, steps[..n]), steps[n]);
    }
  }

  // Mutual exclusion

  /** In every state of every run, at most one handler runs or saves, and of one job at most one run has
    * passed the job's lock. */
  lemma OneAtATime(s: System, steps: seq<Step>, t: nat, u: nat)
    requires Fresh(s) && Runs(s, steps)
    requires t in After(s, steps).tasks && u in After(s, steps).tasks
    ensures
      var one, other := After(s, steps).tasks[t], After(s, steps).tasks[u];
      && (Active(one.at) && Active(other.at) ==> t == u)
      && (one.job == other.job && one.at != Waiting && other.at != Waiting ==> t == u)
  {
    AfterIsSafe(s, steps);
    assert TaskFits(After(s, steps), t) && TaskFits(After(s, steps), u);
  }

  // Overlaps

  lemma {:induction false} TickOverlap(s: System, names: seq<string>, now: int, name: string)
    requires name in s.jobs
    ensures TickAll(s, names, now).jobs.Keys == s.jobs.Keys
    ensures
      var before, after := s.jobs[name], TickAll(s, names, now).jobs[name];
      && after.startedAt == before.startedAt && after.interval == before.interval
      && (before.overlapNoted ==> after.overlapNoted && after.overlaps == before.overlaps)
      && (!before.overlapNoted ==> after.overlaps == before.overlaps + (if after.overlapNoted then 1 else 0))
      && (after.overlaps > before.overlaps ==>
            before.startedAt.Some? && now - before.startedAt.value >= before.interval)
    decreases |names|
  {
    if names != [] {
      TickOverlap(s, names[..|names| - 1], now, name);
    }
  }

  /** An overlap is counted by a wake-up alone, one at a time, for a job whose own run has passed its next
    * start; a job that is only queued is never counted. */
  lemma OverlapsAreReal(s: System, steps: seq<Step>, step: Step, name: string)
    requires Fresh(s) && Runs(s, steps) && Enabled(After(s, steps), step)
    requires name in After(s, steps).jobs && name in Next(After(s, steps), step).jobs
    requires Next(After(s, steps), step).jobs[name].overlaps > After(s, steps).jobs[name].overlaps
    ensures
      var now := After(s, steps);
      && step.Tick?
      && Next(now, step).jobs[name].overlaps == now.jobs[name].overlaps + 1
      && now.global.Some? && now.global.value in now.tasks && now.tasks[now.global.value].job == name
      && Active(now.tasks[now.global.value].at)
      && now.jobs[name].startedAt.Some?
      && step.now - now.jobs[name].startedAt.value >= now.jobs[name].interval
  {
    AfterIsSafe(s, steps);
    var mid := After(s, steps);
    if step.Tick? {
      TickOverlap(mid, mid.order, step.now, name);
      assert JobFits(mid, name);
      assert TaskFits(mid, mid.global.value);
    } else {
      OnlyTicksCount(mid, step, name);
    }
  }

  lemma OnlyTicksCount(s: System, step: Step, name: string)
    requires Enabled(s, step) && !step.Tick? && name in s.jobs
    ensures name in Next(s, step).jobs && Next(s, step).jobs[name].overlaps <= s.jobs[name].overlaps
  {
  }

  // Runs of a job begun in this process
  function Begins(s: System, steps: seq<Step>, name: string): nat
    requires Runs(s, steps)
    decreases |steps|
  {
    if steps == [] then 0
    else
      var n := |steps| - 1;
      var before := After(s, steps[..n]);
      if steps[n].Restart? then 0
      else Begins(s, steps[..n], name) + (if steps[n].Begin? && before.tasks[steps[n].task].job == name then 1 else 0)
  }

  function CanStillOverlap(job: Job): nat {
    if job.startedAt.Some? && !job.overlapNoted then 1 else 0
  }

  /** Each run counts at most one overlap, however many ticks it spans. */
  lemma {:induction false} OverlapsAtMostOncePerRun(s: System, steps: seq<Step>, name: string)
    requires Fresh(s) && Runs(s, steps) && name in s.jobs
    ensures name in After(s, steps).jobs
    ensures After(s, steps).jobs[name].overlaps + CanStillOverlap(After(s, steps).jobs[name]) <= Begins(s, steps, name)
    decreases |steps|
  {
    AfterIsSafe(s, steps);
    if steps == [] {
      assert s.jobs[name] == Loaded(s.jobs[name], Stamps(None, None));
    } else {
      var n := |steps| - 1;
      OverlapsAtMostOncePerRun(s, steps[..n], name);
      AfterIsSafe(s, steps[..n]);
      OverlapStep(After(s, steps[..n]), steps[n], name);
    }
  }

  function Allowance(s: System, step: Step, name: string): nat
    requires Enabled(s, step) && name in s.jobs
  {
    if step.Restart? then 0
    else s.jobs[name].overlaps + CanStillOverlap(s.jobs[name])
         + (if step.Begin? && s.tasks[step.task].job == name then 1 else 0)
  }

  lemma OverlapStep(s: System, step: Step, name: string)
    requires Inv(s) && Enabled(s, step) && name in s.jobs
    ensures name in Next(s, step).jobs
    ensures Next(s, step).jobs[name].overlaps + CanStillOverlap(Next(s, step).jobs[name]) <= Allowance(s, step, name)
  {
    if step.Tick? {
      TickOverlap(s, s.order, step.now, name);
    } else {
      OtherOverlapStep(s, step, name);
    }
  }

  lemma OtherOverlapStep(s: System, step: Step, name: string)
    requires Locks(s) && Enabled(s, step) && name in s.jobs && !step.Tick?
    ensures name in Next(s, step).jobs
    ensures Next(s, step).jobs[name].overlaps + CanStillOverlap(Next(s, step).jobs[name]) <= Allowance(s, step, name)
  {
    assert JobFits(s, name);
  }

  // Counters

  // Runs of a job that ended in this process, with any of the given results
  function Ends(s: System, steps: seq<Step>, name: string, results: set<Verdict>): nat
    requires Runs(s, steps)
    decreases |steps|
  {
    if steps == [] then 0
    else
      var n := |steps| - 1;
      var before := After(s, steps[..n]);
      if steps[n].Restart? then 0
      else Ends(s, steps[..n], name, results)
           + (if EndsWith(before, steps[n], name, results) then 1 else 0)
  }

  predicate EndsWith(s: System, step: Step, name: string, results: set<Verdict>)
    requires Enabled(s, step)
  {
    (step.End? && s.tasks[step.task].job == name && step.result in results)
    || (step.EndWithoutHandler? && s.tasks[step.task].job == name && Raised in results)
  }

  const ALL_RESULTS := {Returned, ReturnedSkipped, Raised, Cancelled}

  lemma {:induction false} TickKeepsCounters(s: System, names: seq<string>, now: int, name: string)
    requires name in s.jobs
    ensures name in TickAll(s, names, now).jobs
    ensures TickAll(s, names, now).jobs[name].total == s.jobs[name].total
    ensures TickAll(s, names, now).jobs[name].succeeded == s.jobs[name].succeeded
    ensures TickAll(s, names, now).jobs[name].failed == s.jobs[name].failed
    decreases |names|
  {
    if names != [] {
      TickKeepsCounters(s, names[..|names| - 1], now, name);
    }
  }

  lemma CounterStep(s: System, step: Step, name: string)
    requires Enabled(s, step) && name in s.jobs && !step.Restart?
    ensures name in Next(s, step).jobs
    ensures
      var before, after := s.jobs[name], Next(s, step).jobs[name];
      && after.total == before.total + (if EndsWith(s, step, name, ALL_RESULTS) then 1 else 0)
      && after.succeeded == before.succeeded + (if EndsWith(s, step, name, {Returned}) then 1 else 0)
      && after.failed == before.failed + (if EndsWith(s, step, name, {Raised}) then 1 else 0)
  {
    if step.Tick? {
      TickKeepsCounters(s, s.order, step.now, name);
    }
  }

  /** The counters of a job count the runs that ended since the process began: all of them, those that
    * returned, and those that raised. */
  lemma {:induction false} CountersCountTheRuns(s: System, steps: seq<Step>, name: string)
    requires Fresh(s) && Runs(s, steps) && name in s.jobs
    ensures name in After(s, steps).jobs
    ensures
      var job := After(s, steps).jobs[name];
      && job.total == Ends(s, steps, name, ALL_RESULTS)
      && job.succeeded == Ends(s, steps, name, {Returned})
      && job.failed == Ends(s, steps, name, {Raised})
    decreases |steps|
  {
    if steps == [] {
      assert s.jobs[name] == Loaded(s.jobs[name], Stamps(None, None));
    } else {
      var n := |steps| - 1;
      CountersCountTheRuns(s, steps[..n], name);
      if !steps[n].Restart? {
        CounterStep(After(s, steps[..n]), steps[n], name);
      }
    }
  }

  // Health

  // The probe gets as far as the stamp of the job's last run: both blocks are objects and the stamp reads.
  predicate RunReads(file: Option<File>, name: string) {
    && file.Some? && file.value.runs.Entries? && file.value.successes.Entries?
    && StampsIn(file, name).run.Some?
  }

  predicate SuccessReads(file: Option<File>, name: string) {
    StampsIn(file, name).success.Some?
  }

  lemma HealthOf(file: Option<File>, saved: seq<Ended>, name: string)
    requires Fits(StampsIn(file, name), saved, name)
    ensures
      var last, good := LastEnd(saved, name), LastOk(saved, name);
      && (last.None? ==> !LastRunFailed(file, name))
      && (last.Some? ==>
            (LastRunFailed(file, name) == !last.value.ok <==>
               if !RunReads(file, name) then last.value.ok
               else if !SuccessReads(file, name) then !last.value.ok
               else last.value.ok || good.value.at < last.value.at))
  {
    LastOkIsAnEnd(saved, name);
  }

  /** What the health probe says of a job's last recorded run, whatever the clock did and whatever the state
    * file lost. Without the stamp of that run, or with a block that is no object, it says nothing failed;
    * with it but without the stamp of the last success it says the run failed; and with both it is right
    * unless the run failed and the last success is stamped at or after it. */
  lemma HealthTellsTheTruth(s: System, steps: seq<Step>, name: string)
    requires Fresh(s) && Runs(s, steps) && name in s.jobs
    ensures
      var end := After(s, steps);
      var last, good := LastEnd(end.saved, name), LastOk(end.saved, name);
      && (last.None? ==> !LastRunFailed(end.file, name))
      && (SuccessReads(end.file, name) ==> good.Some?)
      && (last.Some? ==>
            (LastRunFailed(end.file, name) == !last.value.ok <==>
               if !RunReads(end.file, name) then last.value.ok
               else if !SuccessReads(end.file, name) then !last.value.ok
               else last.value.ok || good.value.at < last.value.at))
  {
    AfterIsSafe(s, steps);
    HealthOf(After(s, steps).file, After(s, steps).saved, name);
  }

  // Every stamp of the job that a save has recorded reads.
  predicate Legible(s: System, name: string) {
    && (LastEnd(s.saved, name).Some? ==> RunReads(s.file, name))
    && (LastOk(s.saved, name).Some? ==> SuccessReads(s.file, name))
  }

  /** When every recorded stamp reads, the probe is right about the last recorded run unless that run failed
    * and the last success is stamped at or after it. */
  lemma LegibleHealthTellsTheTruth(s: System, steps: seq<Step>, name: string)
    requires Fresh(s) && Runs(s, steps) && name in s.jobs && Legible(After(s, steps), name)
    ensures
      var end := After(s, steps);
      var last, good := LastEnd(end.saved, name), LastOk(end.saved, name);
      && (last.None? ==> !LastRunFailed(end.file, name))
      && (last.Some? ==>
            (LastRunFailed(end.file, name) == !last.value.ok
             <==> !(!last.value.ok && good.Some? && good.value.at >= last.value.at)))
  {
    HealthTellsTheTruth(s, steps, name);
    LastOkIsAnEnd(After(s, steps).saved, name);
  }

  lemma {:induction false} LastOkIsAnEnd(log: seq<Ended>, name: string)
    ensures LastOk(log, name).Some? ==> LastEnd(log, name).Some? && LastOk(log, name).value in log
    ensures LastEnd(log, name).Some? && LastEnd(log, name).value.ok ==> LastOk(log, name) == LastEnd(log, name)
    decreases |log|
  {
    if log != [] {
      LastOkIsAnEnd(log[..|log| - 1], name);
    }
  }

  // What the probe owes to the clock

  function Reading(step: Step): Option<int> {
    match step
    case Tick(now) => Some(now)
    case Begin(_, now) => Some(now)
    case End(_, _, now) => Some(now)
    case EndWithoutHandler(_, now) => Some(now)
    case RunOnce(_) => None
    case TakeJobLock(_) => None
    case Save(_, _) => None
    case CancelQueued(_) => None
    case Restart(_) => None
    case Wear(_) => None
  }

  predicate EndsRun(step: Step) {
    step.End? || step.EndWithoutHandler?
  }

  /** No reading is before the one that preceded it. */
  predicate ClockIsSteady(s: System, steps: seq<Step>)
    requires Runs(s, steps)
    decreases |steps|
  {
    steps == [] ||
    (var n := |steps| - 1;
     && ClockIsSteady(s, steps[..n])
     && (Reading(steps[n]).Some? ==> Reading(steps[n]).value >= After(s, steps[..n]).clock))
  }

  /** A steady clock, and every run ends later than the clock last read. */
  predicate ClockAdvances(s: System, steps: seq<Step>)
    requires Runs(s, steps)
    decreases |steps|
  {
    steps == [] ||
    (var n := |steps| - 1;
     && ClockAdvances(s, steps[..n])
     && (Reading(steps[n]).Some? ==> Reading(steps[n]).value >= After(s, steps[..n]).clock)
     && (EndsRun(steps[n]) ==> Reading(steps[n]).value > After(s, steps[..n]).clock))
  }

  ghost predicate Timed(log: seq<Ended>, clock: int) {
    && (forall i :: 0 <= i < |log| ==> log[i].at <= clock)
    && (forall i, j :: 0 <= i <= j < |log| ==> log[i].at <= log[j].at)
  }

  ghost predicate Strict(log: seq<Ended>) {
    forall i, j :: 0 <= i < j < |log| ==> log[i].at < log[j].at
  }

  ghost predicate Ordered(log: seq<Ended>, clock: int, strict: bool) {
    Timed(log, clock) && (strict ==> Strict(log))
  }

  lemma OrderedSnoc(log: seq<Ended>, clock: int, strict: bool, e: Ended)
    requires Ordered(log, clock, strict) && clock <= e.at && (strict ==> clock < e.at)
    ensures Ordered(log + [e], e.at, strict)
  {
  }

  lemma LogStep(s: System, step: Step, strict: bool)
    requires Enabled(s, step) && Ordered(s.log, s.clock, strict) && Ordered(s.saved, s.clock, strict)
    requires Reading(step).Some? ==> Reading(step).value >= s.clock
    requires strict && EndsRun(step) ==> Reading(step).value > s.clock
    ensures Ordered(Next(s, step).log, Next(s, step).clock, strict)
    ensures Ordered(Next(s, step).saved, Next(s, step).clock, strict)
  {
    if step.Tick? {
      TickIsQuiet(s, s.order, step.now);
    } else if EndsRun(step) {
      var ok := step.End? && step.result == Returned;
      OrderedSnoc(s.log, s.clock, strict, Ended(s.tasks[step.task].job, ok, step.now));
    }
  }

  lemma {:induction false} SteadyLogsAreOrdered(s: System, steps: seq<Step>)
    requires Fresh(s) && Runs(s, steps) && ClockIsSteady(s, steps)
    ensures Ordered(After(s, steps).log, After(s, steps).clock, false)
    ensures Ordered(After(s, steps).saved, After(s, steps).clock, false)
    decreases |steps|
  {
    if steps != [] {
      var n := |steps| - 1;
      SteadyLogsAreOrdered(s, steps[..n]);
      LogStep(After(s, steps[..n]), steps[n], false);
    }
  }

  lemma {:induction false} AdvancingLogsAreStrict(s: System, steps: seq<Step>)
    requires Fresh(s) && Runs(s, steps) && ClockAdvances(s, steps)
    ensures Ordered(After(s, steps).log, After(s, steps).clock, true)
    ensures Ordered(After(s, steps).saved, After(s, steps).clock, true)
    decreases |steps|
  {
    if steps != [] {
      var n := |steps| - 1;
      AdvancingLogsAreStrict(s, steps[..n]);
      LogStep(After(s, steps[..n]), steps[n], true);
    }
  }

  lemma {:induction false} LastOkIsEarlier(log: seq<Ended>, name: string, clock: int)
    requires Timed(log, clock) && LastOk(log, name).Some?
    ensures LastEnd(log, name).Some? && LastOk(log, name).value.at <= LastEnd(log, name).value.at
    decreases |log|
  {
    var n := |log| - 1;
    if log[n].job != name {
      LastOkIsEarlier(log[..n], name, clock);
    } else if !log[n].ok {
      LastOkIsAnEnd(log[..n], name);
      var i :| 0 <= i < n && log[..n][i] == LastOk(log[..n], name).value;
      assert log[i].at <= log[n].at;
    }
  }

  /** Under a clock that never steps back only a tie misleads a probe that reads both stamps: a failed run
    * stamped with the very reading of the last success. */
  lemma HealthUnderASteadyClock(s: System, steps: seq<Step>, name: string)
    requires Fresh(s) && Runs(s, steps) && name in s.jobs && ClockIsSteady(s, steps)
    requires LastEnd(After(s, steps).saved, name).Some?
    ensures
      var end := After(s, steps);
      var last, good := LastEnd(end.saved, name).value, LastOk(end.saved, name);
      && (SuccessReads(end.file, name) ==> good.Some?)
      && (LastRunFailed(end.file, name) == !last.ok <==>
            if !RunReads(end.file, name) then last.ok
            else if !SuccessReads(end.file, name) then !last.ok
            else last.ok || good.value.at != last.at)
  {
    HealthTellsTheTruth(s, steps, name);
    SteadyLogsAreOrdered(s, steps);
    var end := After(s, steps);
    if LastOk(end.saved, name).Some? {
      LastOkIsEarlier(end.saved, name, end.clock);
    }
  }

  lemma {:induction false} TickIsQuiet(s: System, names: seq<string>, now: int)
    ensures TickAll(s, names, now).log == s.log && TickAll(s, names, now).saved == s.saved
    decreases |names|
  {
    if names != [] {
      TickIsQuiet(s, names[..|names| - 1], now);
    }
  }

  lemma {:induction false} StrictMeansNoTie(log: seq<Ended>, name: string)
    requires Strict(log) && LastEnd(log, name).Some? && LastOk(log, name).Some?
    ensures LastEnd(log, name).value.ok || LastOk(log, name).value.at < LastEnd(log, name).value.at
    decreases |log|
  {
    var n := |log| - 1;
    if log[n].job != name {
      StrictMeansNoTie(log[..n], name);
    } else if !log[n].ok {
      LastOkIsAnEnd(log[..n], name);
      var i :| 0 <= i < n && log[..n][i] == LastOk(log[..n], name).value;
      assert log[i].at < log[n].at;
    }
  }

  /** With a clock that advances only lost stamps mislead the probe; when every recorded stamp reads, it is
    * true exactly when the last recorded run did not end well. */
  lemma HealthIsExact(s: System, steps: seq<Step>, name: string)
    requires Fresh(s) && Runs(s, steps) && name in s.jobs && ClockAdvances(s, steps)
    ensures
      var end := After(s, steps);
      var last := LastEnd(end.saved, name);
      var failed := last.Some? && !last.value.ok;
      && (LastRunFailed(end.file, name) == failed <==>
            if !RunReads(end.file, name) then !failed else SuccessReads(end.file, name) || failed)
      && (Legible(end, name) ==> LastRunFailed(end.file, name) == failed)
  {
    HealthTellsTheTruth(s, steps, name);
    AdvancingLogsAreStrict(s, steps);
    AfterIsSafe(s, steps);
    var saved := After(s, steps).saved;
    LastOkIsAnEnd(saved, name);
    if LastEnd(saved, name).Some? && LastOk(saved, name).Some? {
      StrictMeansNoTie(saved, name);
    }
  }

  /** A save that succeeds records every run the process knows of, so the probe then speaks of the run that
    * just ended, for each job whose stamps the process has not lost; a job without a handler ends without
    * one. */
  lemma SavingRecordsTheRun(s: System, task: nat, name: string)
    requires Inv(s) && Enabled(s, Save(task, true)) && name in s.jobs
    ensures
      var next := Next(s, Save(task, true));
      && next.saved == next.log == s.log
      && StampsIn(next.file, name) == StampsOf(s.jobs[name])
      && (StampsOf(s.jobs[name]) == StampsFrom(s.log, name) ==>
            LastRunFailed(next.file, name)
            == (LastEnd(s.log, name).Some? &&
                (LastOk(s.log, name).None? || LastOk(s.log, name).value.at < LastEnd(s.log, name).value.at)))
  {
  }

  /** Lost stamps heal: once a run has returned and been saved, both stamps of its job read and are of that
    * run; after any other run the run's stamp does. */
  lemma NextRunHealsTheStamps(s: System, task: nat, result: Verdict, now: int)
    requires Inv(s) && Enabled(s, End(task, result, now))
    ensures
      var name := s.tasks[task].job;
      var ended := Next(s, End(task, result, now));
      && Enabled(ended, Save(task, true))
      && var next := Next(ended, Save(task, true));
      && RunReads(next.file, name) && StampsIn(next.file, name).run == Some(now)
      && LastEnd(next.saved, name) == Some(Ended(name, result == Returned, now))
      && (result == Returned ==> Legible(next, name) && !LastRunFailed(next.file, name))
  {
    EndedSnoc(s.log, Ended(s.tasks[task].job, result == Returned, now), s.tasks[task].job);
  }

  lemma MissingHandlerIsNotRecorded(s: System, task: nat, now: int)
    requires Inv(s) && Enabled(s, EndWithoutHandler(task, now))
    ensures
      var next, name := Next(s, EndWithoutHandler(task, now)), s.tasks[task].job;
      && next.jobs[name].outcome == Some(Failed) && LastEnd(next.log, name) == Some(Ended(name, false, now))
      && next.file == s.file && next.saved == s.saved
  {
    EndedSnoc(s.log, Ended(s.tasks[task].job, false, now), s.tasks[task].job);
  }

  // The log has a run of the job, and its stamp is lost.
  predicate RunLost(stamps: Stamps, log: seq<Ended>, name: string) {
    LastEnd(log, name).Some? && stamps.run.None?
  }

  predicate SuccessLost(stamps: Stamps, log: seq<Ended>, name: string) {
    LastOk(log, name).Some? && stamps.success.None?
  }

  /** A restart with every ended run saved makes a job due earlier or later only for a lost stamp: one that
    * the new process cannot read makes the job due at once, whatever the other stamp. */
  lemma RestartKeepsTheSchedule(s: System, steps: seq<Step>, read: bool, name: string, now: int)
    requires Fresh(s) && Runs(s, steps) && name in s.jobs
    requires After(s, steps).saved == After(s, steps).log
    ensures
      var end := After(s, steps);
      var next := Next(end, Restart(read));
      && name in end.jobs && name in next.jobs
      && var had, has := StampsOf(end.jobs[name]), StampsOf(next.jobs[name]);
      && has == StampsIn(Found(end.file, read), name)
      && (!RunLost(had, end.log, name) && !RunLost(has, end.log, name) ==>
            IsDue(next.jobs[name], now) == IsDue(end.jobs[name], now))
      && (RunLost(has, end.log, name) ==> IsDue(next.jobs[name], now))
      && (!SuccessLost(had, end.log, name) && !SuccessLost(has, end.log, name) ==> has.success == had.success)
  {
    AfterIsSafe(s, steps);
    var end := After(s, steps);
    assert Fits(StampsOf(end.jobs[name]), end.log, name) && Fits(StampsIn(end.file, name), end.saved, name);
  }

  const BACKUP_JOB := Job(10, true, None, None, None, 0, 0, 0, 0, None, None, false)
  const BACKUP_ONLY := System(["backup"], map["backup" := BACKUP_JOB], map[], 0, None, None, 0, [], [])

  predicate Hidden(s: System, name: string) {
    && LastEnd(s.saved, name).Some? && !LastEnd(s.saved, name).value.ok
    && !LastRunFailed(s.file, name)
  }

  /** A run that returns at `good` and one that fails at `bad`, no later: the failure does not show. */
  lemma SuccessHidesAFailure(good: int, bad: int) returns (steps: seq<Step>)
    requires bad <= good
    ensures Fresh(BACKUP_ONLY) && Runs(BACKUP_ONLY, steps) && Hidden(After(BACKUP_ONLY, steps), "backup")
    ensures After(BACKUP_ONLY, steps).saved == [Ended("backup", true, good), Ended("backup", false, bad)]
  {
    var first := RunOnceAt(BACKUP_ONLY, [], Returned, good);
    steps := RunOnceAt(BACKUP_ONLY, first, Raised, bad);
    var log := [Ended("backup", true, good), Ended("backup", false, bad)];
    assert After(BACKUP_ONLY, steps).saved == log;
    assert log[..1] == [log[0]];
  }

  /** Two readings of a stalled clock: the second run failed, and the probe does not say so. */
  lemma StalledClockHidesAFailure()
    ensures exists steps: seq<Step> ::
      Runs(BACKUP_ONLY, steps) && Hidden(After(BACKUP_ONLY, steps), "backup")
      && After(BACKUP_ONLY, steps).saved == [Ended("backup", true, 100), Ended("backup", false, 100)]
  {
    var steps := SuccessHidesAFailure(100, 100);
  }

  /** And so does a clock stepped back between the two, at a different reading. */
  lemma SteppedBackClockHidesAFailure()
    ensures exists steps: seq<Step> ::
      Runs(BACKUP_ONLY, steps) && Hidden(After(BACKUP_ONLY, steps), "backup")
      && After(BACKUP_ONLY, steps).saved == [Ended("backup", true, 100), Ended("backup", false, 90)]
  {
    var steps := SuccessHidesAFailure(100, 90);
  }

  // The file after one whole run
  lemma OneRun(result: Verdict, at: int) returns (steps: seq<Step>)
    ensures Runs(BACKUP_ONLY, steps)
    ensures
      var end := After(BACKUP_ONLY, steps);
      && end.saved == [Ended("backup", result == Returned, at)]
      && end.file.Some? && end.file.value.runs == Entries(map["backup" := at])
      && end.file.value.successes == Entries(if result == Returned then map["backup" := at] else map[])
  {
    steps := RunOnceAt(BACKUP_ONLY, [], result, at);
  }

  /** A file without the block of successes, as older versions wrote it, tells of a failure that never was. */
  lemma LostSuccessRaisesAFalseAlarm()
    ensures exists steps: seq<Step> ::
      Runs(BACKUP_ONLY, steps)
      && After(BACKUP_ONLY, steps).saved == [Ended("backup", true, 100)]
      && LastRunFailed(After(BACKUP_ONLY, steps).file, "backup")
  {
    var steps := OneRun(Returned, 100);
    var file := After(BACKUP_ONLY, steps).file.value;
    var more := Extend(BACKUP_ONLY, steps, After(BACKUP_ONLY, steps), Wear(Some(file.(successes := Entries(map[])))));
  }

  /** A failed run whose stamp is lost does not show. */
  lemma LostRunHidesAFailure()
    ensures exists steps: seq<Step> ::
      Runs(BACKUP_ONLY, steps) && Hidden(After(BACKUP_ONLY, steps), "backup")
      && After(BACKUP_ONLY, steps).saved == [Ended("backup", false, 100)]
  {
    var steps := OneRun(Raised, 100);
    var file := After(BACKUP_ONLY, steps).file.value;
    var more := Extend(BACKUP_ONLY, steps, After(BACKUP_ONLY, steps), Wear(Some(file.(runs := Entries(map[])))));
  }

  /** Nor does it when the other block is no object, although a new process still reads the run's stamp. */
  lemma MalformedBlockHidesAFailure()
    ensures exists steps: seq<Step> ::
      Runs(BACKUP_ONLY, steps) && Hidden(After(BACKUP_ONLY, steps), "backup")
      && After(BACKUP_ONLY, steps).saved == [Ended("backup", false, 100)]
      && StampsIn(After(BACKUP_ONLY, steps).file, "backup").run == Some(100)
  {
    var steps := OneRun(Raised, 100);
    var file := After(BACKUP_ONLY, steps).file.value;
    var more := Extend(BACKUP_ONLY, steps, After(BACKUP_ONLY, steps), Wear(Some(file.(successes := Malformed))));
  }

  ghost predicate Idle(s: System) {
    && "backup" in s.jobs && s.tasks == map[] && s.global.None?
    && s.jobs["backup"].lockedBy.None?
  }

  lemma BeginOnce(s: System, before: seq<Step>, t: nat, at: int) returns (steps: seq<Step>)
    requires Runs(s, before) && Idle(After(s, before)) && t == After(s, before).next
    ensures Runs(s, steps)
    ensures
      var a, d := After(s, before), After(s, steps);
      && d.tasks == map[t := Task("backup", Running)] && d.log == a.log
      && "backup" in d.jobs && d.jobs.Keys == a.jobs.Keys && d.jobs["backup"].lastSuccess == a.jobs["backup"].lastSuccess
  {
    var a := After(s, before);
    var b := Next(a, RunOnce("backup"));
    var c := Next(b, TakeJobLock(t));
    var s1 := Extend(s, before, a, RunOnce("backup"));
    var s2 := Extend(s, s1, b, TakeJobLock(t));
    steps := Extend(s, s2, c, Begin(t, at));
  }

  lemma LeavingKeepsTheFile(s: System, task: nat)
    requires task in s.tasks && s.tasks[task].job in s.jobs
    ensures FileOf(Leave(s, task).jobs) == FileOf(s.jobs)
  {
    var left := Leave(s, task);
    assert FileOf(left.jobs).runs.stamps == FileOf(s.jobs).runs.stamps;
    assert FileOf(left.jobs).successes.stamps == FileOf(s.jobs).successes.stamps;
  }

  lemma EndOnce(d: System, t: nat, result: Verdict, at: int)
    requires d.tasks == map[t := Task("backup", Running)] && "backup" in d.jobs
    ensures Enabled(d, End(t, result, at)) && Enabled(Next(d, End(t, result, at)), Save(t, true))
    ensures var next := Next(Next(d, End(t, result, at)), Save(t, true));
            && next.tasks == map[] && next.global.None? && next.log == d.log + [Ended("backup", result == Returned, at)]
            && next.saved == next.log && next.file == Some(FileOf(next.jobs)) && next.jobs.Keys == d.jobs.Keys
            && next.jobs["backup"].lastRun == Some(at) && next.jobs["backup"].lockedBy.None?
            && next.jobs["backup"].lastSuccess == if result == Returned then Some(at) else d.jobs["backup"].lastSuccess
  {
    var e := Next(d, End(t, result, at));
    assert Next(e, Save(t, true)).tasks == map[];
    LeavingKeepsTheFile(e, t);
  }

  // One whole run of the only job, all of it at one reading
  lemma RunOnceAt(s: System, before: seq<Step>, result: Verdict, at: int) returns (steps: seq<Step>)
    requires Runs(s, before) && Idle(After(s, before))
    ensures Runs(s, steps) && Idle(After(s, steps))
    ensures
      var a, next := After(s, before), After(s, steps);
      && next.log == a.log + [Ended("backup", result == Returned, at)] && next.saved == next.log
      && next.file == Some(FileOf(next.jobs)) && next.jobs.Keys == a.jobs.Keys
      && next.jobs["backup"].lastRun == Some(at)
      && next.jobs["backup"].lastSuccess == if result == Returned then Some(at) else a.jobs["backup"].lastSuccess
  {
    var t := After(s, before).next;
    var begun := BeginOnce(s, before, t, at);
    var d := After(s, begun);
    var e := Next(d, End(t, result, at));
    EndOnce(d, t, result, at);
    var s4 := Extend(s, begun, d, End(t, result, at));
    steps := Extend(s, s4, e, Save(t, true));
  }

  lemma Extend(s: System, steps: seq<Step>, now: System, step: Step) returns (more: seq<Step>)
    requires Runs(s, steps) && now == After(s, steps) && Enabled(now, step)
    ensures more == steps + [step] && Runs(s, more) && After(s, more) == Next(now, step)
  {
    more := steps + [step];
    assert more[..|steps|] == steps;
  }
}
