/** The Windows script, BackupBanana.py: its BackupThread.run, which refuses
    to start without a reachable destination, and the BackupApp state the
    engine touches (the source and destination, the task dictionary, the
    history and log lists, and the jobs registered with the scheduler). */
module WindowsApp {
  import opened Wrappers
  import opened FileTree
  import opened CopyPass
  import opened ChangeScan
  import opened Tasks
  import opened TaskText
  import opened TaskOps
  import opened History
  import opened Rerun

  const UnreachableMessage := "Destination directory is not reachable."

  /** BackupThread.run: the destination check, then the copy pass. */
  method RunBackupThread(source: Path, destination: Path, fs: FileSystem, walk: seq<WalkStep>, env: Environment, date: string)
    returns (fs': FileSystem, progress: seq<int>, outcome: RunOutcome)
    ensures destination !in fs ==> fs' == fs && progress == [] && outcome == Failed([UnreachableMessage])
    ensures destination in fs ==>
      var st := Pass(fs, source, destination, walk, env);
      && st.tally.processed <= FileCount(walk)
      && fs' == st.fs
      && progress == Progress(st.tally.processed, FileCount(walk))
      && outcome == Report(st, date, source, destination)
  {
    if destination !in fs {
      return fs, [], Failed([UnreachableMessage]);
    }
    fs', progress, outcome := RunPass(fs, source, destination, walk, env, date);
  }

  /** The KeyError schedule_task raises for a name that is not in self.tasks. */
  function KeyMissing(name: string): Raised
  {
    KeyError("Task '" + name + "' not found in tasks dictionary")
  }

  /** The jobs schedule_task(name) registers, or the exception it raises:
      nothing for Once, a daily job for Daily, and for Weekly a job on the
      weekday attribute named by the lowered stored day. */
  function Registration(tasks: TaskDict, name: string): (r: Result<seq<Job>, Raised>)
    ensures name !in tasks.entries ==> r == Err(KeyMissing(name))
    ensures r.Ok? ==> name in tasks.entries && |r.value| <= 1 && forall j :: j in r.value ==> j.taskName == name
    ensures r.Ok? ==> (r.value == [] <==> tasks.entries[name].schedule.frequency == Once)
    ensures name in tasks.entries ==>
      var s := tasks.entries[name].schedule;
      (r.Err? <==> s.frequency == Weekly && (s.day.None? || Lower(s.day.value) !in WeekdayNames))
      && (r.Err? ==> r.error.AttributeError?)
  {
    if name !in tasks.entries then Err(KeyMissing(name))
    else
      var s := tasks.entries[name].schedule;
      match s.frequency
      case Once => Ok([])
      case Daily => Ok([Job(name, EveryDayAt(s.time))])
      case Weekly =>
        match s.day
        case None => Err(AttributeError("lower"))
        case Some(d) =>
          var day := Lower(d);
          if day in WeekdayNames then Ok([Job(name, OnWeekdayAt(day, s.time))]) else Err(AttributeError(day))
  }

  /** A schedule as the tasks tab builds it: the day is set exactly for
      Weekly, and then it is one of the combo box's days. */
  predicate FromCombos(s: Schedule)
  {
    if s.frequency == Weekly then s.day.Some? && s.day.value in DayChoices else s.day.None?
  }

  /** The jobs a schedule calls for, independently of the dictionary. */
  function IntendedJobs(name: string, s: Schedule): seq<Job>
    requires FromCombos(s)
  {
    match s.frequency
    case Once => []
    case Daily => [Job(name, EveryDayAt(s.time))]
    case Weekly => [Job(name, OnWeekdayAt(Lower(s.day.value), s.time))]
  }

  /** Registering a stored task whose schedule came from the combo boxes
      never raises and gives exactly the jobs its schedule calls for, on the
      stored weekday for Weekly. */
  lemma RegistrationFromCombos(tasks: TaskDict, name: string)
    requires name in tasks.entries && FromCombos(tasks.entries[name].schedule)
    ensures Registration(tasks, name) == Ok(IntendedJobs(name, tasks.entries[name].schedule))
  {
    DayChoicesAreWeekdays();
  }

  /** What load_tasks registered: the jobs, and the names whose
      registration raised (the loop catches, prints and goes on). */
  datatype Loaded = Loaded(jobs: seq<Job>, failed: seq<string>)

  /** The load_tasks loop over the stored names, registering each recurring
      task against the dictionary the application holds at that moment. */
  function LoadJobs(tasks: TaskDict, stored: TaskDict, names: seq<string>): Loaded
    requires forall n :: n in names ==> n in stored.entries
    decreases |names|
  {
    if names == [] then Loaded([], [])
    else
      var p := LoadJobs(tasks, stored, names[..|names| - 1]);
      var name := names[|names| - 1];
      if stored.entries[name].schedule.frequency == Once then p
      else
        var r := Registration(tasks, name);
        Loaded(p.jobs + JobsOf(r), if r.Err? then p.failed + [name] else p.failed)
  }

  /** One turn of the load_tasks loop. */
  lemma LoadJobsStep(tasks: TaskDict, stored: TaskDict, names: seq<string>, i: nat)
    requires forall n :: n in names ==> n in stored.entries
    requires i < |names|
    ensures var p := LoadJobs(tasks, stored, names[..i]);
      LoadJobs(tasks, stored, names[..i + 1])
      == if stored.entries[names[i]].schedule.frequency == Once then p
         else var r := Registration(tasks, names[i]);
           Loaded(p.jobs + JobsOf(r), if r.Err? then p.failed + [names[i]] else p.failed)
  {
    assert names[..i + 1][..i] == names[..i];
  }

  /** The startup quirk: load_tasks runs while self.tasks is still empty, so
      every recurring stored task fails with KeyError and no job is registered. */
  lemma {:induction false} LoadIntoEmpty(tasks: TaskDict, stored: TaskDict, names: seq<string>)
    requires tasks.entries == map[]
    requires forall n :: n in names ==> n in stored.entries
    ensures LoadJobs(tasks, stored, names) == Loaded([], Recurring(stored, names))
    decreases |names|
  {
    if names != [] {
      LoadIntoEmpty(tasks, stored, names[..|names| - 1]);
    }
  }

  /** The jobs the schedules of the named tasks call for, one name after
      another. */
  function JobsFor(stored: TaskDict, names: seq<string>): seq<Job>
    requires forall n :: n in names ==> n in stored.entries && FromCombos(stored.entries[n].schedule)
    decreases |names|
  {
    if names == [] then []
    else
      var last := names[|names| - 1];
      JobsFor(stored, names[..|names| - 1]) + IntendedJobs(last, stored.entries[last].schedule)
  }

  /** Once all tasks are in the dictionary, loading registers, in order,
      exactly the jobs each recurring task's schedule calls for, and no
      registration fails. */
  lemma {:induction false} LoadIntoFull(stored: TaskDict, names: seq<string>)
    requires forall n :: n in names ==> n in stored.entries && FromCombos(stored.entries[n].schedule)
    ensures LoadJobs(stored, stored, names).failed == []
    ensures LoadJobs(stored, stored, names).jobs == JobsFor(stored, Recurring(stored, names))
    decreases |names|
  {
    if names != [] {
      var front, last := names[..|names| - 1], names[|names| - 1];
      LoadIntoFull(stored, front);
      RegistrationFromCombos(stored, last);
      var p, rec := LoadJobs(stored, stored, front), Recurring(stored, front);
      if stored.entries[last].schedule.frequency == Once {
        assert LoadJobs(stored, stored, names) == p;
        assert Recurring(stored, names) == rec + [];
        assert rec + [] == rec;
      } else {
        var intended := IntendedJobs(last, stored.entries[last].schedule);
        assert LoadJobs(stored, stored, names) == Loaded(p.jobs + intended, p.failed);
        assert Recurring(stored, names) == rec + [last];
        assert (rec + [last])[..|rec|] == rec;
        assert JobsFor(stored, rec + [last]) == JobsFor(stored, rec) + intended;
      }
    }
  }

  /** The outcome of start_backup. */
  datatype StartDecision = MissingPaths | Unreachable | ScanRaised(error: string) | NothingToCopy | Launched

  /** start_backup's checks, in order: both paths set, the destination
      exists, get_changes returns a new or modified entry. */
  function StartGate(source: Path, destination: Path, fs: FileSystem, walk: seq<WalkStep>): StartDecision
  {
    if source == "" || destination == "" then MissingPaths
    else if destination !in fs then Unreachable
    else
      match Scan(fs, source, destination, walk)
      case Err(e) => ScanRaised(e)
      case Ok(c) => if c.newEntries == [] && c.modifiedEntries == [] then NothingToCopy else Launched
  }

  /** start_backup launches a run exactly when both paths are set, the
      destination exists, every listed source file can be read and the
      destination does not already mirror the source; it reports no changes
      exactly when the destination already mirrors the source. */
  lemma StartGateLaunches(source: Path, destination: Path, fs: FileSystem, walk: seq<WalkStep>)
    ensures StartGate(source, destination, fs, walk) == Launched
      <==> source != "" && destination != "" && destination in fs
           && SourcesPresent(fs, source, walk) && !UpToDate(fs, source, destination, walk)
    ensures StartGate(source, destination, fs, walk) == NothingToCopy
      <==> source != "" && destination != "" && destination in fs
           && SourcesPresent(fs, source, walk) && UpToDate(fs, source, destination, walk)
  {
    ScanFailsIff(fs, source, destination, walk);
    if Scan(fs, source, destination, walk).Ok? {
      ScanEmptyIff(fs, source, destination, walk);
    }
  }

  /** For separate source and destination trees, starting the same backup
      again right after a launched run that finished with no error is
      refused with "No changes detected". */
  lemma SecondStartFindsNothing(source: Path, destination: Path, fs: FileSystem, walk: seq<WalkStep>, env: Environment, date: string)
    requires StartGate(source, destination, fs, walk) == Launched
    requires Separate(source, destination, walk)
    requires Report(Pass(fs, source, destination, walk, env), date, source, destination).Finished?
    requires Report(Pass(fs, source, destination, walk, env), date, source, destination).result.errors == []
    ensures StartGate(source, destination, Pass(fs, source, destination, walk, env).fs, walk) == NothingToCopy
  {
    CleanRunLeavesNothingToCopy(fs, source, destination, walk, env, date);
    WalkKeepsPaths(PassState(fs, EmptyTally, None), source, destination, walk, env);
  }

  /** The tray notice record_history shows for a result. */
  function Notice(result: BackupResult): string
  {
    if result.copiedFiles == 0 && result.modifiedFiles == 0 then "No changes detected."
    else "Backup completed successfully."
  }

  /** start_backup launches a run for a missing empty folder alone, and the
      finished run then announces "No changes detected.": source "s" holds
      only the empty folder "s/e", and the destination "d" lacks "d/e". */
  lemma EmptyFolderRunSaysNoChanges()
    ensures var fs := map["s" := Dir(1, 0), "s/e" := Dir(1, 0), "d" := Dir(1, 0)];
      var walk := [WalkStep(".", []), WalkStep("e", [])];
      var env := Environment(map[], map[], 2);
      var outcome := Report(Pass(fs, "s", "d", walk, env), "today", "s", "d");
      && StartGate("s", "d", fs, walk) == Launched
      && outcome.Finished?
      && outcome.result.copiedFolders == 1
      && Notice(outcome.result) == "No changes detected."
  {
    var fs := map["s" := Dir(1, 0), "s/e" := Dir(1, 0), "d" := Dir(1, 0)];
    var walk := [WalkStep(".", []), WalkStep("e", [])];
    var env := Environment(map[], map[], 2);
    assert Mirror("d", "e") == "d/e" && "d/e" !in fs;
    assert Scan(fs, "s", "d", walk).value.newEntries == [NewFolderEntry("d/e")];
    var st1 := EnterDir(PassState(fs, EmptyTally, None), "d", env);
    var st2 := EnterDir(st1, "d/e", env);
    assert Pass(fs, "s", "d", walk, env) == st2;
  }

  /** The outcome of save_task. */
  datatype SaveOutcome =
    | Rejected(message: string)
    | Threw(error: Raised)
    | Saved(name: string, registration: Option<Raised>)

  const NameMessage := "Task name must be set."
  const PathsMessage := "Source and destination must be set."

  /** save_task's early returns, in the order it tests them; reading an
      attribute the folder pickers have not set raises AttributeError. The
      save goes ahead exactly when the name is non-empty and both picked
      folders are set and non-empty. */
  function SaveCheck(name: string, taskSource: Option<Path>, taskDestination: Option<Path>): (r: Option<SaveOutcome>)
    ensures r.None? <==> name != [] && taskSource.Some? && taskSource.value != "" && taskDestination.Some? && taskDestination.value != ""
    ensures r.Some? ==> !r.value.Saved?
  {
    if name == [] then Some(Rejected(NameMessage))
    else if taskSource.None? then Some(Threw(AttributeError("task_source")))
    else if taskSource.value == "" then Some(Rejected(PathsMessage))
    else if taskDestination.None? then Some(Threw(AttributeError("task_destination")))
    else if taskDestination.value == "" then Some(Rejected(PathsMessage))
    else None
  }

  class BackupApp {
    var source: Path
    var destination: Path
    var tasks: TaskDict
    var history: seq<BackupResult>
    var log: seq<BackupResult>
    /** The jobs registered with the scheduler, in registration order. */
    var jobs: seq<Job>
    /** The folders picked for a new task; None until the picker has run. */
    var taskSource: Option<Path>
    var taskDestination: Option<Path>

    ghost predicate Valid()
      reads this
    {
      Tasks.Valid(tasks)
    }

    /** __init__: empty paths and tasks, the loaded history and log, then
        load_tasks while self.tasks is still empty. `stored` is the content
        of tasks.json, None when the file does not exist. */
    constructor (stored: Option<TaskDict>, history: seq<BackupResult>, log: seq<BackupResult>)
      requires stored.Some? ==> Tasks.Valid(stored.value)
      ensures Valid()
      ensures source == "" && destination == ""
      ensures tasks == (if stored.Some? then stored.value else EmptyDict)
      ensures this.history == history && this.log == log
      ensures jobs == []
      ensures taskSource.None? && taskDestination.None?
    {
      source, destination := "", "";
      tasks := EmptyDict;
      this.history, this.log := history, log;
      jobs := [];
      taskSource, taskDestination := None, None;
      new;
      var loaded, failed := LoadTasks(stored);
      LoadIntoEmpty(EmptyDict, loaded, loaded.order);
      tasks := loaded;
    }

    /** schedule_task(name): appends the jobs Registration describes, or
        raises and registers nothing. Earlier jobs are never removed. */
    method ScheduleTask(name: string) returns (raised: Option<Raised>)
      modifies this`jobs
      ensures var r := Registration(tasks, name);
        jobs == old(jobs) + JobsOf(r) && raised == RaisedOf(r)
    {
      if name !in tasks.entries {
        return Some(KeyMissing(name));
      }
      var schedule := tasks.entries[name].schedule;
      if schedule.frequency == Once {
        return None;
      }
      if schedule.frequency == Daily {
        jobs := jobs + [Job(name, EveryDayAt(schedule.time))];
      } else {
        if schedule.day.None? {
          return Some(AttributeError("lower"));
        }
        var day := Lower(schedule.day.value);
        if day !in WeekdayNames {
          return Some(AttributeError(day));
        }
        jobs := jobs + [Job(name, OnWeekdayAt(day, schedule.time))];
      }
      raised := None;
    }

    /** load_tasks: the stored dictionary (empty without a tasks.json), and
        one registration attempt per recurring task, against self.tasks. */
    method LoadTasks(stored: Option<TaskDict>) returns (loaded: TaskDict, failed: seq<string>)
      requires stored.Some? ==> Tasks.Valid(stored.value)
      modifies this`jobs
      ensures loaded == (if stored.Some? then stored.value else EmptyDict)
      ensures Tasks.Valid(loaded)
      ensures var r := LoadJobs(tasks, loaded, loaded.order);
        jobs == old(jobs) + r.jobs && failed == r.failed
    {
      if stored.None? {
        return EmptyDict, [];
      }
      loaded, failed := stored.value, [];
      var i := 0;
      while i < |loaded.order|
        invariant 0 <= i <= |loaded.order|
        invariant var r := LoadJobs(tasks, loaded, loaded.order[..i]);
          jobs == old(jobs) + r.jobs && failed == r.failed
      {
        var refused := LoadTurn(loaded, i, old(jobs));
        if refused {
          failed := failed + [loaded.order[i]];
        }
        i := i + 1;
      }
      assert loaded.order[..i] == loaded.order;
    }

    /** One turn of the load_tasks loop: a recurring task is registered
        through schedule_task, whose exception is caught and reported as
        the task's failure; a one-off task is skipped. */
    method LoadTurn(loaded: TaskDict, i: nat, ghost base: seq<Job>) returns (refused: bool)
      requires Tasks.Valid(loaded) && i < |loaded.order|
      requires jobs == base + LoadJobs(tasks, loaded, loaded.order[..i]).jobs
      modifies this`jobs
      ensures var p, q := LoadJobs(tasks, loaded, loaded.order[..i]), LoadJobs(tasks, loaded, loaded.order[..i + 1]);
        jobs == base + q.jobs && q.failed == p.failed + (if refused then [loaded.order[i]] else [])
    {
      var name := loaded.order[i];
      LoadJobsStep(tasks, loaded, loaded.order, i);
      refused := false;
      if loaded.entries[name].schedule.frequency != Once {
        var raised := ScheduleTask(name);
        refused := raised.Some?;
      }
    }

    /** save_task: the stripped name, the early returns, the dictionary
        update with rename detection, then schedule_task for the name. */
    method SaveTask(nameText: string, frequency: Frequency, time: string, dayText: string) returns (outcome: SaveOutcome)
      requires Valid()
      modifies this`tasks, this`jobs
      ensures Valid()
      ensures var name := Strip(nameText);
        match SaveCheck(name, taskSource, taskDestination)
        case Some(early) => outcome == early && tasks == old(tasks) && jobs == old(jobs)
        case None =>
          && tasks == SaveEntry(old(tasks), name, NewTask(taskSource.value, taskDestination.value, frequency, time, dayText))
          && jobs == old(jobs) + JobsOf(Registration(tasks, name))
          && outcome == Saved(name, RaisedOf(Registration(tasks, name)))
    {
      var name := Strip(nameText);
      var early := SaveCheck(name, taskSource, taskDestination);
      if early.Some? {
        return early.value;
      }
      var task := NewTask(taskSource.value, taskDestination.value, frequency, time, dayText);
      StoreTask(name, task);
      var raised := ScheduleTask(name);
      outcome := Saved(name, raised);
    }

    /** The dictionary update of save_task: an existing name is overwritten;
        a new name first removes the first entry holding the same task,
        unless that entry's name is falsy, and then goes last. */
    method StoreTask(name: string, task: Task)
      requires Valid()
      modifies this`tasks
      ensures Valid()
      ensures tasks == SaveEntry(old(tasks), name, task)
    {
      if name in tasks.entries {
        tasks := Put(tasks, name, task);
      } else {
        var prior := FirstWith(tasks.order, tasks.entries, task);
        if prior.Some? && prior.value != "" {
          tasks := Remove(tasks, prior.value);
        }
        tasks := Put(tasks, name, task);
      }
    }

    /** delete_task: with no selection nothing changes; otherwise each
        selected item's name, read back with split(' - ')[0], is deleted if
        present. Registered jobs are left in place. */
    method DeleteTask(selected: seq<string>) returns (deleted: bool)
      requires Valid()
      modifies this`tasks
      ensures Valid()
      ensures deleted <==> selected != []
      ensures tasks == DeleteItems(old(tasks), selected)
    {
      if selected == [] {
        return false;
      }
      var d, t := tasks, tasks;
      var i := 0;
      while i < |selected|
        invariant 0 <= i <= |selected|
        invariant t == DeleteItems(d, selected[..i])
      {
        DeleteItemsStep(d, selected, i);
        var name := ItemName(selected[i]);
        if name in t.entries {
          t := Remove(t, name);
        }
        i := i + 1;
      }
      assert selected[..i] == selected;
      tasks := t;
      deleted := true;
    }

    /** start_backup: changes nothing; decides whether a run is launched. */
    method StartBackup(fs: FileSystem, walk: seq<WalkStep>) returns (d: StartDecision)
      ensures d == StartGate(source, destination, fs, walk)
    {
      if source == "" || destination == "" {
        return MissingPaths;
      }
      if destination !in fs {
        return Unreachable;
      }
      var changes := GetChanges(fs, source, destination, walk);
      match changes
      case Err(e) => d := ScanRaised(e);
      case Ok(c) => d := if c.newEntries == [] && c.modifiedEntries == [] then NothingToCopy else Launched;
    }

    /** record_history: appends the result to the history, and to the log
        when it carries errors; returns the tray notice it shows. */
    method RecordHistory(result: BackupResult) returns (notice: string)
      modifies this`history, this`log
      ensures Records(history, log) == Append(Records(old(history), old(log)), result)
      ensures notice == Notice(result)
    {
      history := history + [result];
      if result.errors != [] {
        log := log + [result];
      }
      if result.copiedFiles == 0 && result.modifiedFiles == 0 {
        notice := "No changes detected.";
      } else {
        notice := "Backup completed successfully.";
      }
    }

    /** run_scheduled_backup(name): a name no longer in self.tasks returns
        without doing anything; otherwise the task's folders replace the
        current ones and start_backup runs. */
    method RunScheduledBackup(name: string, fs: FileSystem, walk: seq<WalkStep>) returns (d: Option<StartDecision>)
      modifies this`source, this`destination
      ensures name !in tasks.entries ==> d.None? && source == old(source) && destination == old(destination)
      ensures name in tasks.entries ==>
        && source == tasks.entries[name].source
        && destination == tasks.entries[name].destination
        && d == Some(StartGate(source, destination, fs, walk))
    {
      if name !in tasks.entries {
        return None;
      }
      var task := tasks.entries[name];
      source, destination := task.source, task.destination;
      var decision := StartBackup(fs, walk);
      d := Some(decision);
    }

    /** A backup from start to end: start_backup, and when it launches the
        thread, its run and the backup_finished → record_history connection.
        A failed run is only shown, and leaves the history and log alone. */
    method Backup(fs: FileSystem, walk: seq<WalkStep>, env: Environment, date: string)
      returns (fs': FileSystem, progress: seq<int>, decision: StartDecision, outcome: Option<RunOutcome>)
      modifies this`history, this`log
      ensures decision == StartGate(source, destination, fs, walk)
      ensures decision != Launched ==> fs' == fs && progress == [] && outcome.None? && history == old(history) && log == old(log)
      ensures decision == Launched ==>
        var st := Pass(fs, source, destination, walk, env);
        && outcome == Some(Report(st, date, source, destination))
        && fs' == st.fs
        && st.tally.processed <= FileCount(walk)
        && progress == Progress(st.tally.processed, FileCount(walk))
        && match outcome.value
           case Finished(result) => Records(history, log) == Append(Records(old(history), old(log)), result)
           case Failed(_) => history == old(history) && log == old(log)
    {
      decision := StartBackup(fs, walk);
      if decision != Launched {
        return fs, [], decision, None;
      }
      var run;
      fs', progress, run := RunBackupThread(source, destination, fs, walk, env, date);
      outcome := Some(run);
      if run.Finished? {
        var notice := RecordHistory(run.result);
      }
    }
  }
}
