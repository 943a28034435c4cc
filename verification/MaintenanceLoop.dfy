/** The maintenance loop: scheduled jobs as tasks that take their job's lock, then the global lock, run
  * their handler, and save the stamps of all jobs. A step is what happens between two suspensions of the
  * event loop. Times are microsecond readings of the wall clock, which may stand still or step back. */
module MaintenanceLoop {
  import opened Common

  datatype Outcome = Completed | Failed | Skipped | Overlapped

  datatype Job = Job(
    interval: int,
    enabled: bool,
    lastRun: Option<int>,
    lastSuccess: Option<int>,
    outcome: Option<Outcome>,
    total: nat,
    succeeded: nat,
    failed: nat,
    overlaps: nat,
    lockedBy: Option<nat>,
    startedAt: Option<int>,
    overlapNoted: bool)

  // Waiting for the job's lock; holding it and queued for the global one; running; saving the state
  datatype Stage = Waiting | Queued | Running | Saving

  datatype Task = Task(job: string, at: Stage)

  // How a handler ends
  datatype Verdict = Returned | ReturnedSkipped | Raised | Cancelled

  // A run that ended, for the record
  datatype Ended = Ended(job: string, ok: bool, at: int)

  datatype Stamps = Stamps(run: Option<int>, success: Option<int>)

  // One of the two blocks of the state file: no JSON object, or one with these stamps. An entry that is
  // missing, no string or no timestamp is not among them; neither is any when the block is missing.
  datatype Block = Malformed | Entries(stamps: map<string, int>)

  datatype File = File(runs: Block, successes: Block)

  /** The process and its state file; no file is one that is missing, unreadable or no JSON object. `saved`
    * lists the ended runs that a save has recorded, and `log` these and the ones that ended since in this
    * process; both and the last clock reading are for the record only. */
  datatype System = System(
    order: seq<string>,
    jobs: map<string, Job>,
    tasks: map<nat, Task>,
    next: nat,
    global: Option<nat>,
    file: Option<File>,
    clock: int,
    log: seq<Ended>,
    saved: seq<Ended>)

  datatype Step =
    | Tick(now: int)
    | RunOnce(job: string)
    | TakeJobLock(task: nat)
    | Begin(task: nat, now: int)
    | End(task: nat, result: Verdict, now: int)
    | EndWithoutHandler(task: nat, now: int)
    | Save(task: nat, ok: bool)
    | CancelQueued(task: nat)
    | Restart(read: bool)          // whether the new process can read the state file at all
    | Wear(left: Option<File>)     // the state file loses stamps, in whole or in part

  // The tick

  predicate IsDue(job: Job, now: int) {
    job.lastRun.None? || now - job.lastRun.value >= job.interval
  }

  /** A due job with a run in flight: an overlap is counted once, and only for a run whose next start has
    * passed; a queued one is left alone. */
  function NoteInFlight(job: Job, now: int): Job {
    if job.startedAt.None? || job.overlapNoted || now - job.startedAt.value < job.interval then job
    else job.(overlapNoted := true, overlaps := job.overlaps + 1, outcome := Some(Overlapped))
  }

  function Spawned(s: System, name: string): System {
    s.(tasks := s.tasks[s.next := Task(name, Waiting)], next := s.next + 1)
  }

  function TickJob(s: System, name: string, now: int): System {
    if name !in s.jobs || !s.jobs[name].enabled || !IsDue(s.jobs[name], now) then s
    else if s.jobs[name].lockedBy.Some? then s.(jobs := s.jobs[name := NoteInFlight(s.jobs[name], now)])
    else Spawned(s, name)
  }

  function TickAll(s: System, names: seq<string>, now: int): System
    decreases |names|
  {
    if names == [] then s else TickJob(TickAll(s, names[..|names| - 1], now), names[|names| - 1], now)
  }

  // One run

  function Ending(job: Job, result: Verdict, now: int): Job {
    var stamped := job.(total := job.total + 1, lastRun := Some(now));
    match result
    case Returned => stamped.(outcome := Some(Completed), succeeded := job.succeeded + 1, lastSuccess := Some(now))
    case ReturnedSkipped => stamped.(outcome := Some(Skipped))
    case Raised => stamped.(outcome := Some(Failed), failed := job.failed + 1)
    case Cancelled => stamped
  }

  function Released(job: Job): Job {
    job.(lockedBy := None, startedAt := None, overlapNoted := false)
  }

  function Leave(s: System, task: nat): System
    requires task in s.tasks && s.tasks[task].job in s.jobs
  {
    var name := s.tasks[task].job;
    s.(jobs := s.jobs[name := Released(s.jobs[name])], tasks := s.tasks - {task}, global := None)
  }

  // The state file

  function FileOf(jobs: map<string, Job>): File {
    File(Entries(map name | name in jobs && jobs[name].lastRun.Some? :: jobs[name].lastRun.value),
         Entries(map name | name in jobs && jobs[name].lastSuccess.Some? :: jobs[name].lastSuccess.value))
  }

  function Entry(block: Block, name: string): Option<int> {
    if block.Entries? && name in block.stamps then Some(block.stamps[name]) else None
  }

  // Each block and each entry is read on its own.
  function StampsIn(file: Option<File>, name: string): Stamps {
    if file.Some? then Stamps(Entry(file.value.runs, name), Entry(file.value.successes, name)) else Stamps(None, None)
  }

  /** A job as a new process finds it: its settings, and the stamps the file has for it. */
  function Loaded(job: Job, stamps: Stamps): Job {
    Job(job.interval, job.enabled, stamps.run, stamps.success, None, 0, 0, 0, 0, None, None, false)
  }

  function LoadedJobs(jobs: map<string, Job>, file: Option<File>): map<string, Job> {
    map name | name in jobs :: Loaded(jobs[name], StampsIn(file, name))
  }

  // What a process that can or cannot read the file finds
  function Found(file: Option<File>, read: bool): Option<File> {
    if read then file else None
  }

  predicate Fades(before: Block, after: Block) {
    after.Entries? ==> forall name | name in after.stamps :: Entry(before, name) == Some(after.stamps[name])
  }

  // Stamps and blocks may be lost or spoiled; none is invented.
  predicate Wears(before: Option<File>, after: Option<File>) {
    after.Some? ==>
      var none := Entries(map[]);
      && Fades(if before.Some? then before.value.runs else none, after.value.runs)
      && Fades(if before.Some? then before.value.successes else none, after.value.successes)
  }

  predicate Enabled(s: System, step: Step) {
    match step
    case Tick(_) => true
    case RunOnce(job) => job in s.jobs
    case TakeJobLock(task) =>
      && task in s.tasks && s.tasks[task].at == Waiting
      && s.tasks[task].job in s.jobs && s.jobs[s.tasks[task].job].lockedBy.None?
    case Begin(task, _) =>
      task in s.tasks && s.tasks[task].at == Queued && s.tasks[task].job in s.jobs && s.global.None?
    case End(task, _, _) => task in s.tasks && s.tasks[task].at == Running && s.tasks[task].job in s.jobs
    case EndWithoutHandler(task, _) => task in s.tasks && s.tasks[task].at == Running && s.tasks[task].job in s.jobs
    case Save(task, _) => task in s.tasks && s.tasks[task].at == Saving && s.tasks[task].job in s.jobs
    case CancelQueued(task) =>
      task in s.tasks && s.tasks[task].at in {Waiting, Queued} && s.tasks[task].job in s.jobs
    case Restart(_) => true
    case Wear(left) => Wears(s.file, left)
  }

  function EndRun(s: System, task: nat, result: Verdict, now: int): System
    requires task in s.tasks && s.tasks[task].job in s.jobs
  {
    var name := s.tasks[task].job;
    s.(jobs := s.jobs[name := Ending(s.jobs[name], result, now)],
       tasks := s.tasks[task := Task(name, Saving)],
       clock := now,
       log := s.log + [Ended(name, result == Returned, now)])
  }

  function Next(s: System, step: Step): System
    requires Enabled(s, step)
  {
    match step
    case Tick(now) => TickAll(s, s.order, now).(clock := now)
    case RunOnce(job) => Spawned(s, job)
    case TakeJobLock(task) =>
      var name := s.tasks[task].job;
      s.(jobs := s.jobs[name := s.jobs[name].(lockedBy := Some(task))], tasks := s.tasks[task := Task(name, Queued)])
    case Begin(task, now) =>
      var name := s.tasks[task].job;
      s.(jobs := s.jobs[name := s.jobs[name].(startedAt := Some(now))],
         tasks := s.tasks[task := Task(name, Running)], global := Some(task), clock := now)
    case End(task, result, now) => EndRun(s, task, result, now)
    case EndWithoutHandler(task, now) => Leave(EndRun(s, task, Raised, now), task)
    case Save(task, ok) =>
      Leave(if ok then s.(file := Some(FileOf(s.jobs)), saved := s.log) else s, task)
    case CancelQueued(task) =>
      var name := s.tasks[task].job;
      s.(jobs := if s.tasks[task].at == Queued then s.jobs[name := s.jobs[name].(lockedBy := None)] else s.jobs,
         tasks := s.tasks - {task})
    case Restart(read) =>
      s.(jobs := LoadedJobs(s.jobs, Found(s.file, read)), tasks := map[], global := None, log := s.saved)
    case Wear(left) => s.(file := left)
  }

  predicate Runs(s: System, steps: seq<Step>)
    decreases |steps|, 0
  {
    steps == [] || (Runs(s, steps[..|steps| - 1]) && Enabled(After(s, steps[..|steps| - 1]), steps[|steps| - 1]))
  }

  function After(s: System, steps: seq<Step>): System
    requires Runs(s, steps)
    decreases |steps|, 1
  {
    if steps == [] then s else Next(After(s, steps[..|steps| - 1]), steps[|steps| - 1])
  }

  /** A first process: nothing has run, nothing is saved. */
  predicate Fresh(s: System) {
    && s.tasks == map[] && s.global.None? && s.file.None? && s.log == [] && s.saved == []
    && (forall name :: name in s.jobs ==>
          s.jobs[name] == Loaded(s.jobs[name], Stamps(None, None)))
  }

  // The health probe

  /** Did the last recorded run of a job fail, as the state file tells it? A block that is no object ends the
    * question, whichever of the two it is. */
  predicate LastRunFailed(file: Option<File>, name: string) {
    && file.Some? && file.value.runs.Entries? && file.value.successes.Entries?
    && var stamps := StampsIn(file, name);
       stamps.run.Some? && (stamps.success.None? || stamps.success.value < stamps.run.value)
  }

  // The last ended run of a job, and the last that went well
  function LastEnd(log: seq<Ended>, name: string): Option<Ended>
    decreases |log|
  {
    if log == [] then None
    else if log[|log| - 1].job == name then Some(log[|log| - 1])
    else LastEnd(log[..|log| - 1], name)
  }

  function LastOk(log: seq<Ended>, name: string): Option<Ended>
    decreases |log|
  {
    if log == [] then None
    else if log[|log| - 1].job == name && log[|log| - 1].ok then Some(log[|log| - 1])
    else LastOk(log[..|log| - 1], name)
  }

  // The loop object

  class Loop {
    const order: seq<string>
    var jobs: map<string, Job>
    var tasks: map<nat, Task>
    var next: nat
    var global: Option<nat>
    var file: Option<File>
    ghost var clock: int
    ghost var log: seq<Ended>
    ghost var saved: seq<Ended>

    ghost function State(): System
      reads this
    {
      System(order, jobs, tasks, next, global, file, clock, log, saved)
    }

    constructor (order: seq<string>, jobs: map<string, Job>, now: int)
      requires forall name :: name in jobs ==> jobs[name] == Loaded(jobs[name], Stamps(None, None))
      ensures Fresh(State())
      ensures State() == System(order, jobs, map[], 0, None, None, now, [], [])
    {
      this.order := order;
      this.jobs, tasks, next, global, file := jobs, map[], 0, None, None;
      clock, log, saved := now, [], [];
    }

    method Spawn(name: string)
      modifies this
      ensures State() == Spawned(old(State()), name)
    {
      tasks := tasks[next := Task(name, Waiting)];
      next := next + 1;
    }

    method NoteDueInFlight(name: string, now: int)
      requires name in jobs
      modifies `jobs
      ensures State() == old(State()).(jobs := old(jobs)[name := NoteInFlight(old(jobs)[name], now)])
    {
      var job := jobs[name];
      if job.startedAt.None? {
        return;
      }
      if job.overlapNoted || now - job.startedAt.value < job.interval {
        return;
      }
      job := job.(overlapNoted := true);
      job := job.(overlaps := job.overlaps + 1);
      jobs := jobs[name := job.(outcome := Some(Overlapped))];
    }

    /** One wake-up of the loop: dispatch every due job that is not in flight. */
    method WakeUp(now: int)
      modifies this
      ensures State() == Next(old(State()), Tick(now))
    {
      for i := 0 to |order|
        invariant State() == TickAll(old(State()), order[..i], now)
      {
        assert order[..i + 1][..i] == order[..i];
        var name := order[i];
        if name in jobs {
          if !jobs[name].enabled {
            continue;
          }
          if !IsDue(jobs[name], now) {
            continue;
          }
          if jobs[name].lockedBy.Some? {
            NoteDueInFlight(name, now);
            continue;
          }
          Spawn(name);
        }
      }
      assert order[..|order|] == order;
      clock := now;
    }

    /** The job's lock is free and this task takes it. */
    method TakeLock(task: nat)
      requires Enabled(State(), TakeJobLock(task))
      modifies this
      ensures State() == Next(old(State()), TakeJobLock(task))
    {
      var name := tasks[task].job;
      jobs := jobs[name := jobs[name].(lockedBy := Some(task))];
      tasks := tasks[task := Task(name, Queued)];
    }

    /** The global lock is free too: the job is running. */
    method BeginRun(task: nat, now: int)
      requires Enabled(State(), Begin(task, now))
      modifies this
      ensures State() == Next(old(State()), Begin(task, now))
    {
      var name := tasks[task].job;
      global := Some(task);
      jobs := jobs[name := jobs[name].(startedAt := Some(now))];
      tasks := tasks[task := Task(name, Running)];
      clock := now;
    }

    method Release(task: nat)
      requires task in tasks && tasks[task].job in jobs
      modifies this
      ensures State() == Leave(old(State()), task)
    {
      var name := tasks[task].job;
      jobs := jobs[name := jobs[name].(startedAt := None, overlapNoted := false, lockedBy := None)];
      tasks := tasks - {task};
      global := None;
    }

    /** A job nobody registered a handler for fails at once, and its state is not saved. */
    method RunWithoutHandler(task: nat, now: int)
      requires Enabled(State(), EndWithoutHandler(task, now))
      modifies this
      ensures State() == Next(old(State()), EndWithoutHandler(task, now))
    {
      var name := tasks[task].job;
      var job := jobs[name].(outcome := Some(Failed));
      job := job.(failed := job.failed + 1);
      job := job.(total := job.total + 1);
      jobs := jobs[name := job.(lastRun := Some(now))];
      tasks := tasks[task := Task(name, Saving)];
      log := log + [Ended(name, false, now)];
      clock := now;
      Release(task);
    }

    /** The handler ended; one clock reading stamps both times. */
    method EndHandler(task: nat, result: Verdict, now: int)
      requires Enabled(State(), End(task, result, now))
      modifies this
      ensures State() == Next(old(State()), End(task, result, now))
    {
      var name := tasks[task].job;
      var job := jobs[name];
      var ok := false;
      match result {
        case Returned =>
          job := job.(outcome := Some(Completed), succeeded := job.succeeded + 1);
          ok := true;
        case ReturnedSkipped => job := job.(outcome := Some(Skipped));
        case Raised => job := job.(outcome := Some(Failed), failed := job.failed + 1);
        case Cancelled =>
      }
      job := job.(total := job.total + 1);
      job := job.(lastRun := Some(now));
      if ok {
        job := job.(lastSuccess := Some(now));
      }
      jobs := jobs[name := job];
      tasks := tasks[task := Task(name, Saving)];
      log := log + [Ended(name, result == Returned, now)];
      clock := now;
    }

    /** Replace the state file, or fail to, and let both locks go. */
    method SaveState(task: nat, ok: bool)
      requires Enabled(State(), Save(task, ok))
      modifies this
      ensures State() == Next(old(State()), Save(task, ok))
    {
      if ok {
        file := Some(FileOf(jobs));
        saved := log;
      }
      Release(task);
    }

    /** A new process reads the stamps it can from the file, and starts with nothing in flight. */
    method LoadState(read: bool)
      modifies this
      ensures State() == Next(old(State()), Restart(read))
    {
      jobs := LoadedJobs(jobs, if read then file else None);
      tasks := map[];
      global := None;
      log := saved;
    }
  }
}
