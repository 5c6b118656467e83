/** The macOS script, BackupBanana_MAC.py: its BackupThread.run, which has
    no destination check, and the BackupApp state the engine touches. It
    differs from the Windows script in the start gate, save_task, the Weekly
    registration, the first-error abort of load_tasks and the KeyError of
    run_scheduled_backup. */
module MacApp {
  import opened Wrappers
  import opened FileTree
  import opened CopyPass
  import opened ChangeScan
  import opened Tasks
  import opened TaskText
  import opened TaskOps
  import opened History
  import opened Rerun

  /** BackupThread.run: the copy pass, with the destination root created
      like any other absent folder. */
  method RunBackupThread(source: Path, destination: Path, fs: FileSystem, walk: seq<WalkStep>, env: Environment, date: string)
    returns (fs': FileSystem, progress: seq<int>, outcome: RunOutcome)
    ensures var st := Pass(fs, source, destination, walk, env);
      && st.tally.processed <= FileCount(walk)
      && fs' == st.fs
      && progress == Progress(st.tally.processed, FileCount(walk))
      && outcome == Report(st, date, source, destination)
  {
    fs', progress, outcome := RunPass(fs, source, destination, walk, env, date);
  }

  /** The jobs schedule_task(name) registers, or the exception it raises:
      nothing for Once (before the time is parsed); otherwise the time must
      parse, and Daily gets a daily job and Weekly a weekly job that ignores
      the stored day. */
  function Registration(tasks: TaskDict, name: string): (r: Result<seq<Job>, Raised>)
    ensures name !in tasks.entries ==> r == Err(KeyError(name))
    ensures r.Ok? ==> name in tasks.entries && |r.value| <= 1 && forall j :: j in r.value ==> j.taskName == name
    ensures r.Ok? ==> (r.value == [] <==> tasks.entries[name].schedule.frequency == Once)
    ensures name in tasks.entries && tasks.entries[name].schedule.frequency == Once ==> r == Ok([])
    ensures name in tasks.entries && tasks.entries[name].schedule.frequency != Once ==>
      (r.Ok? <==> ParseTime(tasks.entries[name].schedule.time).Ok?)
  {
    if name !in tasks.entries then Err(KeyError(name))
    else
      var s := tasks.entries[name].schedule;
      if s.frequency == Once then Ok([])
      else
        match ParseTime(s.time)
        case Err(e) => Err(e)
        case Ok(_) =>
          if s.frequency == Daily then Ok([Job(name, EveryDayAt(s.time))])
          else Ok([Job(name, EveryWeekAt(s.time))])
  }

  /** The stored day plays no part in registration: two tasks that differ
      only in their day register the same jobs. */
  lemma WeeklyIgnoresDay(tasks: TaskDict, name: string, day: Option<string>)
    requires name in tasks.entries
    ensures var t := tasks.entries[name];
      Registration(TaskDict(tasks.order, tasks.entries[name := t.(schedule := t.schedule.(day := day))]), name)
      == Registration(tasks, name)
  {
  }

  /** The jobs a schedule calls for, independently of the dictionary. */
  function IntendedJobs(name: string, s: Schedule): seq<Job>
  {
    match s.frequency
    case Once => []
    case Daily => [Job(name, EveryDayAt(s.time))]
    case Weekly => [Job(name, EveryWeekAt(s.time))]
  }

  /** A stored task whose time came from the "HH:mm" editor registers
      exactly the jobs its schedule calls for. */
  lemma RegistrationFromEditor(tasks: TaskDict, name: string)
    requires name in tasks.entries && ClockText(tasks.entries[name].schedule.time)
    ensures Registration(tasks, name) == Ok(IntendedJobs(name, tasks.entries[name].schedule))
  {
    ClockTextParses(tasks.entries[name].schedule.time);
  }

  /** What load_tasks registered before it returned or raised. */
  datatype Loaded = Loaded(jobs: seq<Job>, raised: Option<Raised>)

  /** The load_tasks loop over the stored names: each recurring task is
      registered against the dictionary the application holds at that
      moment, and the first exception escapes, ending the loop. */
  function LoadJobs(tasks: TaskDict, stored: TaskDict, names: seq<string>): Loaded
    requires forall n :: n in names ==> n in stored.entries
    decreases |names|
  {
    if names == [] then Loaded([], None)
    else
      var p := LoadJobs(tasks, stored, names[..|names| - 1]);
      var name := names[|names| - 1];
      if p.raised.Some? || stored.entries[name].schedule.frequency == Once then p
      else
        var r := Registration(tasks, name);
        Loaded(p.jobs + JobsOf(r), RaisedOf(r))
  }

  /** The startup quirk: load_tasks runs while self.tasks is still empty, so
      the first recurring stored task raises KeyError out of load_tasks, and
      nothing is registered before it. */
  lemma {:induction false} LoadIntoEmpty(tasks: TaskDict, stored: TaskDict, names: seq<string>)
    requires tasks.entries == map[]
    requires forall n :: n in names ==> n in stored.entries
    ensures var r := LoadJobs(tasks, stored, names);
      var rec := Recurring(stored, names);
      && r.jobs == []
      && (rec == [] ==> r.raised.None?)
      && (rec != [] ==> r.raised == Some(KeyError(rec[0])))
    decreases |names|
  {
    if names != [] {
      var front := names[..|names| - 1];
      LoadIntoEmpty(tasks, stored, front);
    }
  }

  /** The outcome of start_backup. */
  datatype StartDecision = MissingPaths | ScanRaised(error: string) | NothingToCopy | Launched

  /** start_backup's checks, in order: both paths set, get_changes returns a
      new or modified entry. There is no reachability check. */
  function StartGate(source: Path, destination: Path, fs: FileSystem, walk: seq<WalkStep>): StartDecision
  {
    if source == "" || destination == "" then MissingPaths
    else
      match Scan(fs, source, destination, walk)
      case Err(e) => ScanRaised(e)
      case Ok(c) => if c.newEntries == [] && c.modifiedEntries == [] then NothingToCopy else Launched
  }

  /** start_backup launches a run exactly when both paths are set, every
      listed source file can be read and the destination does not already
      mirror the source, whether or not the destination exists. */
  lemma StartGateLaunches(source: Path, destination: Path, fs: FileSystem, walk: seq<WalkStep>)
    ensures StartGate(source, destination, fs, walk) == Launched
      <==> source != "" && destination != "" && SourcesPresent(fs, source, walk) && !UpToDate(fs, source, destination, walk)
    ensures StartGate(source, destination, fs, walk) == NothingToCopy
      <==> source != "" && destination != "" && SourcesPresent(fs, source, walk) && UpToDate(fs, source, destination, walk)
  {
    ScanFailsIff(fs, source, destination, walk);
    if Scan(fs, source, destination, walk).Ok? {
      ScanEmptyIff(fs, source, destination, walk);
    }
  }

  /** With the destination missing, a walk that starts at the source always
      finds its mirror absent, so start_backup launches whenever it can read
      the source files. */
  lemma MissingDestinationLaunches(source: Path, destination: Path, fs: FileSystem, walk: seq<WalkStep>)
    requires source != "" && destination != "" && destination !in fs
    requires walk != [] && walk[0].rel == "."
    requires SourcesPresent(fs, source, walk)
    ensures StartGate(source, destination, fs, walk) == Launched
  {
    StartGateLaunches(source, destination, fs, walk);
    assert Mirror(destination, walk[0].rel) == destination;
  }

  /** For separate source and destination trees, starting the same backup
      again right after a run that finished with no error is refused with
      "No changes detected". */
  lemma SecondStartFindsNothing(source: Path, destination: Path, fs: FileSystem, walk: seq<WalkStep>, env: Environment, date: string)
    requires source != "" && destination != ""
    requires Separate(source, destination, walk)
    requires Report(Pass(fs, source, destination, walk, env), date, source, destination).Finished?
    requires Report(Pass(fs, source, destination, walk, env), date, source, destination).result.errors == []
    ensures StartGate(source, destination, Pass(fs, source, destination, walk, env).fs, walk) == NothingToCopy
  {
    CleanRunLeavesNothingToCopy(fs, source, destination, walk, env, date);
  }

  /** The outcome of save_task. */
  datatype SaveOutcome =
    | Rejected(message: string)
    | Threw(error: Raised)
    | Saved(name: string, registration: Option<Raised>)

  const MissingMessage := "Task name, source, and destination must be set."

  /** save_task's single early return, `not task_name or not task_source or
      not task_destination`, evaluated left to right; reading an attribute
      the folder pickers have not set raises AttributeError. The save goes
      ahead exactly when the name and both picked folders are non-empty. */
  function SaveCheck(name: string, taskSource: Option<Path>, taskDestination: Option<Path>): (r: Option<SaveOutcome>)
    ensures r.None? <==> name != [] && taskSource.Some? && taskSource.value != "" && taskDestination.Some? && taskDestination.value != ""
    ensures r.Some? ==> !r.value.Saved?
  {
    if name == [] then Some(Rejected(MissingMessage))
    else if taskSource.None? then Some(Threw(AttributeError("task_source")))
    else if taskSource.value == "" then Some(Rejected(MissingMessage))
    else if taskDestination.None? then Some(Threw(AttributeError("task_destination")))
    else if taskDestination.value == "" then Some(Rejected(MissingMessage))
    else None
  }

  class BackupApp {
    var source: Path
    var destination: Path
    var tasks: TaskDict
    var history: seq<BackupResult>
    var log: seq<BackupResult>
    /** The jobs registered with the scheduler, in registration order. */
    var jobs: seq<Job>
    /** The folders picked for a new task; None until the picker has run. */
    var taskSource: Option<Path>
    var taskDestination: Option<Path>

    ghost predicate Valid()
      reads this
    {
      Tasks.Valid(tasks)
    }

    /** __init__ up to the load_tasks call: empty paths and tasks, the
        loaded history and log, no jobs. */
    constructor (history: seq<BackupResult>, log: seq<BackupResult>)
      ensures Valid()
      ensures source == "" && destination == "" && tasks == EmptyDict
      ensures this.history == history && this.log == log
      ensures jobs == []
      ensures taskSource.None? && taskDestination.None?
    {
      source, destination := "", "";
      tasks := EmptyDict;
      this.history, this.log := history, log;
      jobs := [];
      taskSource, taskDestination := None, None;
    }

    /** The rest of __init__: `self.tasks = self.load_tasks()`. Since
        self.tasks is still empty, it raises KeyError, and the application
        does not start, exactly when tasks.json holds a recurring task. */
    method Startup(stored: Option<TaskDict>) returns (raised: Option<Raised>)
      requires Valid() && tasks == EmptyDict && jobs == []
      requires stored.Some? ==> Tasks.Valid(stored.value)
      modifies this`tasks, this`jobs
      ensures Valid() && jobs == []
      ensures stored.None? ==> raised.None? && tasks == EmptyDict
      ensures stored.Some? ==>
        var rec := Recurring(stored.value, stored.value.order);
        && (rec == [] ==> raised.None? && tasks == stored.value)
        && (rec != [] ==> raised == Some(KeyError(rec[0])) && tasks == EmptyDict)
    {
      var loaded;
      loaded, raised := LoadTasks(stored);
      LoadIntoEmpty(tasks, loaded, loaded.order);
      if raised.None? {
        tasks := loaded;
      }
    }

    /** schedule_task(name): appends the jobs Registration describes, or
        raises and registers nothing. Earlier jobs are never removed. */
    method ScheduleTask(name: string) returns (raised: Option<Raised>)
      modifies this`jobs
      ensures var r := Registration(tasks, name);
        jobs == old(jobs) + JobsOf(r) && raised == RaisedOf(r)
    {
      if name !in tasks.entries {
        return Some(KeyError(name));
      }
      var schedule := tasks.entries[name].schedule;
      if schedule.frequency == Once {
        return None;
      }
      var parsed := ParseTime(schedule.time);
      if parsed.Err? {
        return Some(parsed.error);
      }
      if schedule.frequency == Daily {
        jobs := jobs + [Job(name, EveryDayAt(schedule.time))];
      } else {
        jobs := jobs + [Job(name, EveryWeekAt(schedule.time))];
      }
      raised := None;
    }

    /** load_tasks: the stored dictionary (empty without a tasks.json), and
        one registration per recurring task against self.tasks, until the
        first one raises. */
    method LoadTasks(stored: Option<TaskDict>) returns (loaded: TaskDict, raised: Option<Raised>)
      requires stored.Some? ==> Tasks.Valid(stored.value)
      modifies this`jobs
      ensures loaded == (if stored.Some? then stored.value else EmptyDict)
      ensures Tasks.Valid(loaded)
      ensures var r := LoadJobs(tasks, loaded, loaded.order);
        jobs == old(jobs) + r.jobs && raised == r.raised
    {
      if stored.None? {
        return EmptyDict, None;
      }
      loaded, raised := stored.value, None;
      var i := 0;
      while i < |loaded.order|
        invariant 0 <= i <= |loaded.order|
        invariant var r := LoadJobs(tasks, loaded, loaded.order[..i]);
          jobs == old(jobs) + r.jobs && r.raised.None? && raised.None?
      {
        raised := LoadTurn(loaded, i, old(jobs));
        if raised.Some? {
          LoadJobsStopped(tasks, loaded, loaded.order, i + 1);
          return;
        }
        i := i + 1;
      }
      assert loaded.order[..i] == loaded.order;
    }

    /** One turn of the load_tasks loop: a recurring task is registered
        through schedule_task, a one-off task is skipped. */
    method LoadTurn(loaded: TaskDict, i: nat, ghost base: seq<Job>) returns (raised: Option<Raised>)
      requires Tasks.Valid(loaded) && i < |loaded.order|
      requires var p := LoadJobs(tasks, loaded, loaded.order[..i]);
        p.raised.None? && jobs == base + p.jobs
      modifies this`jobs
      ensures var q := LoadJobs(tasks, loaded, loaded.order[..i + 1]);
        jobs == base + q.jobs && raised == q.raised
    {
      var name := loaded.order[i];
      LoadJobsStep(tasks, loaded, loaded.order, i);
      if loaded.entries[name].schedule.frequency != Once {
        raised := ScheduleTask(name);
      } else {
        raised := None;
      }
    }

    /** save_task: the early return, `tasks[name] = task` with no rename
        detection and no stripping, then schedule_task for the name. */
    method SaveTask(name: string, frequency: Frequency, time: string, dayText: string) returns (outcome: SaveOutcome)
      requires Valid()
      modifies this`tasks, this`jobs
      ensures Valid()
      ensures match SaveCheck(name, taskSource, taskDestination)
        case Some(early) => outcome == early && tasks == old(tasks) && jobs == old(jobs)
        case None =>
          && tasks == Put(old(tasks), name, NewTask(taskSource.value, taskDestination.value, frequency, time, dayText))
          && jobs == old(jobs) + JobsOf(Registration(tasks, name))
          && outcome == Saved(name, RaisedOf(Registration(tasks, name)))
    {
      var early := SaveCheck(name, taskSource, taskDestination);
      if early.Some? {
        return early.value;
      }
      tasks := Put(tasks, name, NewTask(taskSource.value, taskDestination.value, frequency, time, dayText));
      var raised := ScheduleTask(name);
      outcome := Saved(name, raised);
    }

    /** delete_task: with no selection nothing changes; otherwise each
        selected item's name, read back with split(' - ')[0], is deleted if
        present. Registered jobs are left in place. */
    method DeleteTask(selected: seq<string>) returns (deleted: bool)
      requires Valid()
      modifies this`tasks
      ensures Valid()
      ensures deleted <==> selected != []
      ensures tasks == DeleteItems(old(tasks), selected)
    {
      if selected == [] {
        return false;
      }
      var d, t := tasks, tasks;
      var i := 0;
      while i < |selected|
        invariant 0 <= i <= |selected|
        invariant t == DeleteItems(d, selected[..i])
      {
        DeleteItemsStep(d, selected, i);
        var name := ItemName(selected[i]);
        if name in t.entries {
          t := Remove(t, name);
        }
        i := i + 1;
      }
      assert selected[..i] == selected;
      tasks := t;
      deleted := true;
    }

    /** start_backup: changes nothing; decides whether a run is launched. */
    method StartBackup(fs: FileSystem, walk: seq<WalkStep>) returns (d: StartDecision)
      ensures d == StartGate(source, destination, fs, walk)
    {
      if source == "" || destination == "" {
        return MissingPaths;
      }
      var changes := GetChanges(fs, source, destination, walk);
      match changes
      case Err(e) => d := ScanRaised(e);
      case Ok(c) => d := if c.newEntries == [] && c.modifiedEntries == [] then NothingToCopy else Launched;
    }

    /** record_history: appends the result to the history, and to the log
        when it carries errors. */
    method RecordHistory(result: BackupResult)
      modifies this`history, this`log
      ensures Records(history, log) == Append(Records(old(history), old(log)), result)
    {
      history := history + [result];
      if result.errors != [] {
        log := log + [result];
      }
    }

    /** run_scheduled_backup(name): `self.tasks[name]` raises KeyError for a
        name no longer in self.tasks; otherwise the task's folders replace
        the current ones and start_backup runs. */
    method RunScheduledBackup(name: string, fs: FileSystem, walk: seq<WalkStep>) returns (r: Result<StartDecision, Raised>)
      modifies this`source, this`destination
      ensures name !in tasks.entries ==> r == Err(KeyError(name)) && source == old(source) && destination == old(destination)
      ensures name in tasks.entries ==>
        && source == tasks.entries[name].source
        && destination == tasks.entries[name].destination
        && r == Ok(StartGate(source, destination, fs, walk))
    {
      if name !in tasks.entries {
        return Err(KeyError(name));
      }
      var task := tasks.entries[name];
      source, destination := task.source, task.destination;
      var decision := StartBackup(fs, walk);
      r := Ok(decision);
    }

    /** A backup from start to end: start_backup, and when it launches the
        thread, its run, backup_finished → record_history, and the thread's
        finished signal, whose notice claims success whatever the outcome
        (error_occurred is not connected). */
    method Backup(fs: FileSystem, walk: seq<WalkStep>, env: Environment, date: string)
      returns (fs': FileSystem, progress: seq<int>, decision: StartDecision, outcome: Option<RunOutcome>, notice: Option<string>)
      modifies this`history, this`log
      ensures decision == StartGate(source, destination, fs, walk)
      ensures decision != Launched ==> fs' == fs && progress == [] && outcome.None? && notice.None? && history == old(history) && log == old(log)
      ensures decision == Launched ==>
        var st := Pass(fs, source, destination, walk, env);
        && outcome == Some(Report(st, date, source, destination))
        && fs' == st.fs
        && st.tally.processed <= FileCount(walk)
        && progress == Progress(st.tally.processed, FileCount(walk))
        && notice == Some("Backup completed successfully.")
        && match outcome.value
           case Finished(result) => Records(history, log) == Append(Records(old(history), old(log)), result)
           case Failed(_) => history == old(history) && log == old(log)
    {
      decision := StartBackup(fs, walk);
      if decision != Launched {
        return fs, [], decision, None, None;
      }
      var run;
      fs', progress, run := RunBackupThread(source, destination, fs, walk, env, date);
      outcome := Some(run);
      if run.Finished? {
        RecordHistory(run.result);
      }
      notice := Some("Backup completed successfully.");
    }
  }

  /** One turn of the load_tasks loop, before any registration has raised. */
  lemma LoadJobsStep(tasks: TaskDict, stored: TaskDict, names: seq<string>, i: nat)
    requires forall n :: n in names ==> n in stored.entries
    requires i < |names| && LoadJobs(tasks, stored, names[..i]).raised.None?
    ensures var p := LoadJobs(tasks, stored, names[..i]);
      LoadJobs(tasks, stored, names[..i + 1])
      == if stored.entries[names[i]].schedule.frequency == Once then p
         else var r := Registration(tasks, names[i]);
           Loaded(p.jobs + JobsOf(r), RaisedOf(r))
  {
    assert names[..i + 1][..i] == names[..i];
  }

  /** Once a registration has raised, the rest of the names change nothing. */
  lemma {:induction false} LoadJobsStopped(tasks: TaskDict, stored: TaskDict, names: seq<string>, k: nat)
    requires forall n :: n in names ==> n in stored.entries
    requires k <= |names| && LoadJobs(tasks, stored, names[..k]).raised.Some?
    ensures LoadJobs(tasks, stored, names) == LoadJobs(tasks, stored, names[..k])
    decreases |names| - k
  {
    if k < |names| {
      assert names[..k + 1][..k] == names[..k];
      LoadJobsStopped(tasks, stored, names, k + 1);
    } else {
      assert names[..k] == names;
    }
  }
}
