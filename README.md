# BackupBanana backup engine in Dafny

BackupBanana is a desktop backup tool shipped as two scripts:
`BackupBanana.py` for Windows and `BackupBanana_MAC.py` for macOS. This
project models the engine both scripts share, and where they differ it
models each script separately.

- **Copy pass.** `BackupThread.run` walks the source tree. It mirrors each
  directory under the destination and tallies folders and files as new or
  modified. It copies every visited file and logs per-file errors. It
  emits one progress value per file, and ends with either `backup_finished`
  or `error_occurred`.
- **Change scan.** `get_changes` is the read-only comparison that decides
  whether `start_backup` launches a run at all.
- **Task dictionary.** The tasks live in an insertion-ordered dictionary
  from task name to task. `save_task` (with the Windows rename detection),
  `delete_task` (which reads names back from list texts),
  `load_tasks`/`schedule_task` (which register scheduler jobs) and
  `run_scheduled_backup` operate on it.
- **History.** `record_history` appends results to the history and to the
  error log.

The file system is a map from path to entry, where an entry is a directory
or a file with a modification time and a size. `os.walk` becomes a
sequence of walk steps, each holding a relative directory and its file
names. What the scripts cannot see becomes a parameter:
- the reasons `shutil.copy2` and `os.makedirs` raise;
- the modification time of a new directory;
- the date string.

Each script is a module (`WindowsApp`, `MacApp`) with a `BackupApp` class.
The class fields are the ones the source updates in place: `source`,
`destination`, `tasks`, `history`, `log`, the registered scheduler `jobs`,
and the two picked task folders.

The proved results that matter most:
- **Start gate.** `start_backup` launches exactly when both paths are set,
  every listed source file is readable and the destination does not
  already mirror the source. The Windows script additionally needs the
  destination to exist. It reports "No changes detected" in exactly the
  up-to-date case.
- **Counting.** The copy pass tallies every walked directory exactly once,
  as created or as already present. It emits one progress value per
  visited file, and progress values stay in 0..100, never decrease and end
  at 100.
- **Rerun.** When the source and destination trees are separate (no
  destination file is listed twice and none is also a source file), a run
  that finishes with no error leaves the destination up to date, so
  starting the same backup again is refused with "No changes detected".
- **Startup.** Both scripts call `load_tasks` while `self.tasks` is still
  `{}`. On Windows every recurring stored task therefore fails to register
  at startup, and no job is scheduled. On macOS the first recurring stored
  task raises `KeyError` out of `__init__`.
- **Deleting.** `delete_task` removes exactly the names read back from the
  selected items. A task whose name contains `" - "` is read back as a
  different name.

## Model

| member | source | states |
|---|---|---|
| CopyPass.VisitFile | BackupBanana.py:65-75 | a file is tallied new exactly when its destination is absent and modified exactly when both exist and the source is strictly newer; the copy succeeds exactly when the source exists and the environment lets copy2 succeed, and then the destination holds the source's entry; otherwise nothing changes and the error line is "Error copying src to dst: reason" |
| CopyPass.CopyOne | BackupBanana.py:65-76 | the per-file try/except and counter produce the file system and tally VisitFile and Record describe |
| CopyPass.Record | BackupBanana.py:69-77 | defines the tally update for one visited file: the destination goes to copied_files_list or modified_files_list by its classification, an error is logged, and the counter grows by one |
| CopyPass.VisitFiles | BackupBanana.py:65-79 | defines the per-file loop of one directory, file by file in walk order; its properties are stated by VisitFilesCounts, VisitFilesKeepsFolders and Rerun.VisitFilesClean |
| CopyPass.EnterDir | BackupBanana.py:57-63 | defines the folder step: an existing mirror is appended to modified_folders_list, an absent one is created and appended to copied_folders_list, and a makedirs failure ends the pass; EnterDirCountsOnce states its effect |
| CopyPass.Turn | BackupBanana.py:56-79 | defines one turn of the walk loop: the folder step, then the per-file loop unless makedirs raised |
| CopyPass.WalkFrom | BackupBanana.py:56-79 | defines the walk loop over the remaining steps, ending at the first makedirs failure |
| CopyPass.Pass | BackupBanana.py:49-79 | defines the whole copy pass from empty lists and a zero counter |
| CopyPass.Report | BackupBanana.py:81-94 | defines the emitted signal: error_occurred([message]) after a fatal error, otherwise backup_finished with the four list sizes, the paths and the error log |
| CopyPass.Percent | BackupBanana.py:78 | defines the progress value after k of total files, on integers |
| CopyPass.Progress | BackupBanana.py:76-79 | defines the progress values emitted after the first k files, one per file |
| CopyPass.CopyFiles | BackupBanana.py:65-79 | the inner loop over a directory's files yields the per-file pass over all of them, advances the counter by the number of files, and has emitted exactly the progress values for the files done so far |
| CopyPass.RunPass | BackupBanana.py:49-91 | the walk loop yields the file system, progress values and signal of the whole pass: the counter never exceeds total_files, a makedirs failure ends the run with error_occurred([message]), otherwise backup_finished carries the sizes of the four tally lists and the error log |
| CopyPass.PercentBounds | BackupBanana.py:77-78 | a progress value lies in 0..100 and is 100 once every file is done |
| CopyPass.PercentMonotone | BackupBanana.py:77-78 | progress values do not decrease as the counter grows |
| CopyPass.Emit | BackupBanana.py:77-79 | after the k-th file the emitted values are those for k - 1 files followed by the percentage for k files |
| CopyPass.RunTurn | BackupBanana.py:56-79 | one turn of the walk loop performs the folder step and the per-file loop of its directory; a makedirs failure leaves the tally and progress as they were, otherwise the counter grows by the directory's file count and progress matches it |
| CopyPass.ProgressAt | BackupBanana.py:76-79 | after k files exactly k values have been emitted, the i-th being the percentage after i + 1 files |
| CopyPass.ProgressShape | BackupBanana.py:76-79 | emitted progress values lie in 0..100, never decrease, and the last is 100 when every file was processed |
| CopyPass.VisitFilesKeepsFolders | BackupBanana.py:65-79 | the per-file loop touches neither the folder tallies nor the fatal outcome |
| CopyPass.VisitFilesCounts | BackupBanana.py:65-79 | the per-file loop counts every file, adds at most one error per file, tallies only visited destination files and each at most once, and removes no path |
| CopyPass.EnterDirCountsOnce | BackupBanana.py:57-63 | the folder step tallies its mirrored directory exactly once, as copied or as modified |
| CopyPass.TurnCountsFolder | BackupBanana.py:56-63 | a turn that does not fail adds exactly its mirrored directory to the folder tallies |
| CopyPass.WalkCountsFolders | BackupBanana.py:56-63 | a pass not cut short tallies exactly the mirrored walked directories, each once, across copied and modified folders |
| CopyPass.WalkCountsFiles | BackupBanana.py:49-79 | the counter advances by at most total_files and by exactly total_files when the pass is not cut short; errors never exceed files processed; the tallied files are visited destination files, each at most once |
| CopyPass.PassCountsFiles | BackupBanana.py:49-79 | the counter of a whole pass never exceeds total_files |
| CopyPass.WalkKeepsPaths | BackupBanana.py:56-63 | the pass removes no path; a pass not cut short leaves every walked directory mirrored; a fatal message is one makedirs raised |
| CopyPass.WalkExtendsFolders | BackupBanana.py:56-63 | the folder tallies only grow at the end |
| CopyPass.PassEntersRootFirst | BackupBanana_MAC.py:51-58 | the first walked directory is the destination itself: an existing one is the first modified folder, an absent one is created as the first copied folder, and when makedirs fails there the pass ends with nothing changed or tallied |
| ChangeScan.ScanFiles | BackupBanana.py:696-705 | defines the per-file scan of one directory: getsize raises for a missing source, an absent destination file goes to new_files, a strictly older one to modified_files, and both add the source size; its properties are stated by ScanFilesFails and ScanFilesFacts |
| ChangeScan.ScanDir | BackupBanana.py:691-695 | defines the folder step of the scan: an absent mirrored directory adds "New folder: path" to new_files |
| ChangeScan.ScanFrom | BackupBanana.py:691-705 | defines the walk loop of the scan, stopping at the first exception; its properties are stated by ScanFromFails and ScanFromFacts |
| ChangeScan.Scan | BackupBanana.py:687-706 | defines get_changes as the walk loop from empty lists and a zero total |
| ChangeScan.AbsentFilesMembers | BackupBanana.py:700-702 | a destination file is in the absent-files list exactly when it belongs to the directory and does not exist |
| ChangeScan.NewerFilesMembers | BackupBanana.py:703-705 | a destination file is in the older-files list exactly when it belongs to the directory, both copies exist and the source is strictly newer |
| ChangeScan.FilesUpToDateIff | BackupBanana.py:696-705 | with every source present, a directory adds nothing exactly when none of its files needs copying |
| ChangeScan.UpToDateIff | BackupBanana.py:691-705 | with every source present, the walk adds no new and no modified entry exactly when every mirror exists and no file needs copying |
| ChangeScan.ScanFilesFails | BackupBanana.py:696-705 | the per-file scan raises exactly when a source file is missing |
| ChangeScan.ScanFilesFacts | BackupBanana.py:696-705 | a per-file scan that does not raise appends exactly the absent destination files to new_files, exactly the older ones to modified_files, each in order, and exactly their sizes to total_size |
| ChangeScan.ScanFromFails | BackupBanana.py:691-705 | the walk-level scan raises exactly when a listed source file is missing |
| ChangeScan.ScanFromFacts | BackupBanana.py:691-705 | a walk-level scan that does not raise appends, per directory, its "New folder" entry and absent files to new_files and its older files to modified_files, and the bytes pending to total_size |
| ChangeScan.ScanEmptyIff | BackupBanana.py:687-706 | new_files and modified_files are both empty exactly when every walked directory has its mirror and no listed file is absent or older at the destination |
| ChangeScan.ScanContents | BackupBanana.py:687-706 | get_changes returns exactly the walk's new entries, modified entries and the size of exactly the files that need copying |
| ChangeScan.ScanFailsIff | BackupBanana.py:699 | get_changes raises exactly when some listed source file is missing |
| ChangeScan.ScanDirFiles | BackupBanana.py:696-705 | the inner loop over a directory's files computes the per-file scan |
| ChangeScan.GetChanges | BackupBanana_MAC.py:555-574 | the nested loops, with getsize raising for a missing source, compute the scan specification |
| Tasks.Put | BackupBanana.py:389-395 | `tasks[name] = task` keeps the dictionary well formed, maps name to task, leaves other entries, keeps an existing key in place and appends a new key last |
| Tasks.Remove | BackupBanana.py:394 | `del tasks[name]` keeps the dictionary well formed, removes exactly that key, keeps the other entries and shrinks it by one; the key leaves its place in the iteration order and every other key keeps its relative position |
| Tasks.WithoutAt | BackupBanana.py:394 | taking a key out of a duplicate-free iteration order removes it from its position and leaves the keys before and after it in order |
| Tasks.WithoutAbsent | BackupBanana.py:394 | an iteration order without the key is left unchanged |
| Tasks.FirstWith | BackupBanana.py:392 | `next(...)` over the dictionary gives the first name in iteration order whose task equals the new one, and None exactly when there is none |
| Tasks.Recurring | BackupBanana.py:422-425 | the names load_tasks tries to register are exactly the stored ones whose frequency is not Once, on either system |
| Tasks.NewTask | BackupBanana.py:377-387 | the task save_task builds on either system stores the day exactly for Weekly |
| TaskOps.Replaced | BackupBanana.py:389-394 | an existing name deletes nothing; for a new name the deleted entry is exactly the first equal entry in iteration order, when there is one and its name is truthy |
| TaskOps.SaveEntry | BackupBanana.py:389-395 | the Windows save maps the name to the new task, leaves every other surviving entry untouched, keeps the keys and order for an existing name, and grows the dictionary by at most one |
| TaskOps.SaveEntryAdds | BackupBanana.py:391-395 | with no equal task under a non-empty name, a new name is added and the count grows by one |
| TaskOps.SaveEntryRenames | BackupBanana.py:391-395 | otherwise the first equal entry in dictionary order is replaced by the new name and the count is unchanged |
| TaskOps.DeleteItems | BackupBanana.py:408-411 | deleting parsed item names keeps the dictionary well formed |
| TaskOps.DeleteItemsStep | BackupBanana.py:408-411 | one turn of the deletion loop deletes the parsed name exactly when it is still a key |
| TaskOps.DeleteItemsRemoves | BackupBanana.py:408-411 | the deletion loop removes exactly the names read back from the selected items and keeps every other entry unchanged |
| TaskText.StripStart | BackupBanana.py:368 | defines lstrip over Python's whitespace; StripStartDrops states its effect |
| TaskText.StripEnd | BackupBanana.py:368 | defines rstrip over Python's whitespace; StripEndDrops states its effect |
| TaskText.Strip | BackupBanana.py:368 | defines str.strip() as rstrip after lstrip; StripMiddle states its effect |
| TaskText.StripStartDrops | BackupBanana.py:368 | the left half of str.strip() drops exactly the leading whitespace |
| TaskText.StripEndDrops | BackupBanana.py:368 | the right half of str.strip() drops exactly the trailing whitespace |
| TaskText.StripMiddle | BackupBanana.py:368 | str.strip() returns the contiguous middle of the text with no whitespace at either end, and is empty exactly when the text is all whitespace |
| TaskText.ItemName | BackupBanana.py:409 | split(' - ')[0] is the longest prefix before the first " - ", or the whole text when there is none |
| TaskText.ItemNameRoundTrip | BackupBanana.py:409 | a name that holds no " - " and does not end in " -" is read back from name + " - " + anything |
| TaskText.ScheduleText | BackupBanana.py:436-443 | the schedule column reads "frequency at time", with " on day" for Weekly |
| TaskText.ScheduleTextShowsFrequency | BackupBanana.py:436-443 | equal schedule columns have equal frequencies, and a Weekly column ends with " on " and the day, a null day shown as "None" |
| TaskText.ItemText | BackupBanana.py:445 | defines the Windows list item text: name, source, destination and schedule column joined by " - " |
| TaskText.MacItemText | BackupBanana_MAC.py:379 | defines the macOS list item text: name, source and destination joined by " - " |
| TaskText.ItemTextNamesTask | BackupBanana.py:445 | the list item of a task with a safe name reads back as that name on either system |
| TaskText.UnsafeItemNamesOtherTask | BackupBanana_MAC.py:379 | the item of a task named "a - b" reads back as "a", so delete_task cannot delete it and deletes a task "a" instead |
| TaskText.Lower | BackupBanana.py:507 | str.lower() keeps the length |
| TaskText.DayChoicesAreWeekdays | BackupBanana.py:260 | every day the combo box offers lowers to a weekday attribute of a scheduler job |
| TaskText.Split | BackupBanana_MAC.py:421 | str.split(c) yields at least one piece and no piece holds c |
| TaskText.SplitJoin | BackupBanana_MAC.py:421 | joining the pieces of a split with c gives the text back |
| TaskText.ParseInt | BackupBanana_MAC.py:422 | defines int() on ASCII decimal text: surrounding whitespace, an optional sign and at least one digit, None where int() raises ValueError |
| TaskText.ParseTime | BackupBanana_MAC.py:421-422 | defines the time split and the two int() calls, with ValueError or IndexError where Python raises them and in the order it raises them |
| TaskText.TwoDigits | BackupBanana_MAC.py:422 | int() of two decimal digits is their value |
| TaskText.ParseTimeNoColon | BackupBanana_MAC.py:421-422 | a time with no colon raises ValueError when it is not a number and IndexError when it is, in the order the two int() calls run |
| TaskText.ClockTextParses | BackupBanana_MAC.py:421-422 | every "HH:mm" text of the time editor parses, so schedule_task does not raise on it |
| History.ErrorRecordsMembers | BackupBanana.py:619-622 | a result is log-bound exactly when it is one of the results and has errors |
| History.ErrorRecordsConcat | BackupBanana.py:619-622 | the error records of two runs of results are those of each, in order |
| History.Append | BackupBanana.py:613-622 | record_history appends the result to the history, and to the log exactly when it has errors |
| History.AppendAllRecords | BackupBanana.py:613-622 | over any number of runs the history is every result in order and the log exactly the results with errors |
| Rerun.VisitFilesPreserves | BackupBanana.py:65-75 | the per-file loop changes no path other than the destination files it visits |
| Rerun.WalkPreserves | BackupBanana.py:56-79 | the pass changes no present path other than the destination files it visits |
| Rerun.VisitFilesClean | BackupBanana.py:65-75 | a per-file loop that logs no error found every source and leaves each destination file holding its source's entry |
| Rerun.CleanParts | BackupBanana.py:65-75 | with distinct destination files disjoint from the sources, the first file's copy touches no other file of the directory |
| Rerun.WalkLeavesUpToDate | BackupBanana.py:56-79 | a pass that ends without a fatal error and logs no error leaves every walked directory mirrored and every listed file copied |
| Rerun.CleanRunLeavesNothingToCopy | BackupBanana.py:81-90 | after a run that emits backup_finished with an empty error list, get_changes succeeds and reports no new and no modified entries |
| WindowsApp.RunBackupThread | BackupBanana.py:44-94 | an absent destination raises "Destination directory is not reachable." with nothing changed; otherwise the copy pass runs |
| WindowsApp.KeyMissing | BackupBanana.py:492-493 | defines the KeyError schedule_task raises for a name that is not in the dictionary |
| WindowsApp.Registration | BackupBanana.py:490-510 | a missing name raises the KeyError message; a stored name raises exactly when it is Weekly with a null day or a day that does not lower to a weekday, and then AttributeError; otherwise nothing is registered for Once and one job for the task otherwise |
| WindowsApp.RegistrationFromCombos | BackupBanana.py:490-510 | a task saved through the combo boxes registers without error exactly the jobs its schedule calls for |
| WindowsApp.LoadJobs | BackupBanana.py:422-429 | defines the load_tasks loop: each recurring task is registered against the dictionary held at that moment, and a failure is caught and recorded by name |
| WindowsApp.LoadJobsStep | BackupBanana.py:422-429 | one turn of the load loop skips a Once task and otherwise adds the registered jobs or records the failure |
| WindowsApp.LoadIntoEmpty | BackupBanana.py:118-131 | load_tasks running while self.tasks is {} registers no job and fails exactly for every recurring stored task |
| WindowsApp.LoadIntoFull | BackupBanana.py:417-431 | loading against the full dictionary would fail for no task and register, in order, exactly the jobs each recurring task's schedule calls for |
| WindowsApp.StartGate | BackupBanana.py:574-603 | defines start_backup's checks in source order: both paths set, the destination reachable, get_changes not raising, and a new or modified entry |
| WindowsApp.StartGateLaunches | BackupBanana.py:574-598 | start_backup launches exactly when both paths are set, the destination exists, every source file is readable and the destination is not up to date; it reports no changes exactly in the up-to-date case |
| WindowsApp.SecondStartFindsNothing | BackupBanana.py:574-603 | for separate source and destination trees (`Separate`), starting again right after a launched run that finished with no error reports "No changes detected" |
| WindowsApp.Notice | BackupBanana.py:623-636 | defines record_history's tray notice: "No changes detected." exactly when no file was copied or modified |
| WindowsApp.EmptyFolderRunSaysNoChanges | BackupBanana.py:624-630 | a source holding only a new empty folder launches a run whose notice is "No changes detected." though it copied a folder |
| WindowsApp.SaveCheck | BackupBanana.py:368-375 | the save goes ahead exactly when the stripped name and both picked folders are non-empty; an unset picker raises AttributeError |
| WindowsApp.BackupApp.constructor | BackupBanana.py:118-131 | empty paths, the loaded history and log, the stored tasks, and no registered job |
| WindowsApp.BackupApp.ScheduleTask | BackupBanana.py:490-510 | appends the registered jobs, or raises and appends nothing |
| WindowsApp.BackupApp.LoadTasks | BackupBanana.py:417-431 | returns the stored dictionary, or {} without a file, after one registration attempt per recurring task that catches and records each failure |
| WindowsApp.BackupApp.StoreTask | BackupBanana.py:389-395 | the dictionary update of save_task: the tasks become the rename-aware save and stay well formed |
| WindowsApp.BackupApp.LoadTurn | BackupBanana.py:422-429 | one turn of the load loop appends the jobs the specification adds and reports whether the task failed |
| WindowsApp.BackupApp.SaveTask | BackupBanana.py:367-400 | an early return changes nothing; otherwise the tasks become the rename-aware save of the stripped name, and the name is scheduled |
| WindowsApp.BackupApp.DeleteTask | BackupBanana.py:402-415 | no selection changes nothing; otherwise the tasks lose exactly the parsed names |
| WindowsApp.BackupApp.StartBackup | BackupBanana.py:574-603 | decides the start gate and changes nothing |
| WindowsApp.BackupApp.RecordHistory | BackupBanana.py:613-636 | appends to the history and, with errors, to the log; the notice says no changes exactly when no file was copied or modified |
| WindowsApp.BackupApp.RunScheduledBackup | BackupBanana.py:512-521 | a vanished task does nothing; otherwise the task's folders become current and start_backup decides |
| WindowsApp.BackupApp.Backup | BackupBanana.py:574-636 | a launched run records its finished result in history and log and leaves them alone when it fails |
| MacApp.RunBackupThread | BackupBanana_MAC.py:42-89 | the copy pass with no reachability check |
| MacApp.Registration | BackupBanana_MAC.py:412-428 | a missing name raises KeyError(name); Once registers nothing whatever the time, because it returns before the time is parsed; otherwise registration succeeds exactly when the time parses, with a daily or weekly job |
| MacApp.WeeklyIgnoresDay | BackupBanana_MAC.py:426-428 | the stored day plays no part in registration |
| MacApp.RegistrationFromEditor | BackupBanana_MAC.py:412-428 | a time from the "HH:mm" editor always registers exactly the jobs its schedule calls for |
| MacApp.LoadJobs | BackupBanana_MAC.py:369-372 | defines the load_tasks loop: each recurring task is registered against the dictionary held at that moment, and the first exception ends the loop |
| MacApp.LoadJobsStep | BackupBanana_MAC.py:369-372 | one turn of the load loop skips a Once task and otherwise adds the registered jobs or stops at the raised exception |
| MacApp.LoadIntoEmpty | BackupBanana_MAC.py:106-118 | load_tasks against {} registers no job and raises KeyError for the first recurring stored task, if any |
| MacApp.StartGate | BackupBanana_MAC.py:476-485 | defines start_backup's checks in source order: both paths set, get_changes not raising, and a new or modified entry |
| MacApp.StartGateLaunches | BackupBanana_MAC.py:476-485 | start_backup launches exactly when both paths are set, every source file is readable and the destination is not up to date, whether or not it exists |
| MacApp.MissingDestinationLaunches | BackupBanana_MAC.py:476-485 | a missing destination always counts as a change, so the run launches whenever the source files can be read |
| MacApp.SecondStartFindsNothing | BackupBanana_MAC.py:476-491 | for separate source and destination trees (`Separate`), starting again right after a run that finished with no error reports "No changes detected" |
| MacApp.SaveCheck | BackupBanana_MAC.py:328-331 | the save goes ahead exactly when the unstripped name and both picked folders are non-empty; an unset picker raises AttributeError |
| MacApp.BackupApp.constructor | BackupBanana_MAC.py:106-117 | empty paths and tasks, the loaded history and log, no registered job |
| MacApp.BackupApp.Startup | BackupBanana_MAC.py:118 | `self.tasks = self.load_tasks()` raises KeyError for the first recurring stored task and leaves the tasks empty; otherwise the stored tasks are set; no job is registered either way |
| MacApp.BackupApp.ScheduleTask | BackupBanana_MAC.py:412-428 | appends the registered jobs, or raises and appends nothing |
| MacApp.BackupApp.LoadTasks | BackupBanana_MAC.py:364-374 | returns the stored dictionary, or {} without a file, registering recurring tasks until the first exception escapes |
| MacApp.BackupApp.LoadTurn | BackupBanana_MAC.py:369-372 | one turn of the load loop appends the jobs the specification adds and returns the exception it raises, if any |
| MacApp.BackupApp.SaveTask | BackupBanana_MAC.py:327-347 | an early return changes nothing; otherwise `tasks[name] = task` with no rename detection, and the name is scheduled |
| MacApp.BackupApp.DeleteTask | BackupBanana_MAC.py:349-362 | no selection changes nothing; otherwise the tasks lose exactly the parsed names |
| MacApp.BackupApp.StartBackup | BackupBanana_MAC.py:476-491 | decides the start gate and changes nothing |
| MacApp.BackupApp.RecordHistory | BackupBanana_MAC.py:496-504 | appends to the history and, with errors, to the log |
| MacApp.BackupApp.RunScheduledBackup | BackupBanana_MAC.py:430-434 | a vanished task raises KeyError(name) and changes nothing; otherwise the task's folders become current and start_backup decides |
| MacApp.BackupApp.Backup | BackupBanana_MAC.py:476-494 | a launched run records its finished result and always announces "Backup completed successfully.", even when the run failed |

## Left out

- Progress is computed on integers as k * 100 / total. The source's `int((k / total) * 100)` goes through floating point and can differ by one. Only the bounds, the monotonicity and the final 100 are stated.
- Paths are plain strings joined with "/". On Windows `os.path.join` uses "\\", so the paths in error lines and in "New folder:" entries differ there. `os.path.relpath` is replaced by the relative directory the walk records.
- `os.path.join(destination, ".")` is taken to be the destination itself. So a destination that is a regular file is modelled as an existing folder: the model tallies it as modified and copies under it. The script's `os.makedirs` would raise there and end the run with error_occurred.
- A destination file path that is a directory is overwritten by the copied entry in the model. `shutil.copy2` would instead copy into that directory under the file's base name.
- `os.makedirs` is modelled as creating only the leaf directory. Creating missing parents and `exist_ok` races are not modelled.
- A failed `shutil.copy2` is modelled as leaving the destination untouched. A partial copy, and metadata copying apart from the modification time, are not modelled.
- The file system is one snapshot. Nothing models the time between `start_backup`'s check and the thread's run, or concurrent changes during the walk.
- The order `os.walk` yields directories and files in is a parameter: the walk sequence.
- `str.strip` uses Python's full `str.isspace` set. Two things are not modelled: `str.lower` on non-ASCII letters, and `int()` on non-ASCII digits or numerals with `_` separators.
- The scheduler library is not modelled. Its validation of the `.at()` time string, its check that `.at()` suits the job's unit, its clock, and its dispatch loop in `SchedulerThread` are left out. A job is recorded as a task name and a trigger. So the Weekly case of MacApp.RegistrationFromEditor is the job the script asks for; the library may refuse `.at()` on an `every().week` job.
- WindowsApp.Registration: `getattr` on a lowered day that is not a weekday raises AttributeError here. Other attributes of a schedule job (such as "day" or "week") are not modelled.
- Frequencies are the three the combo box offers. Other strings in a hand-edited tasks.json are not modelled.
- Reading and writing tasks.json, history.json and log.json are not modelled. The stored content is a parameter, and a malformed file or a missing key is not modelled.
- The printed diagnostics of `schedule_task` and `load_tasks` are not modelled. The Windows LoadTasks returns the names whose registration failed instead.
- Qt widgets, message boxes, the tray icon, the preview tab and threads are not modelled. Message boxes and tray notices become returned values where the logic depends on them.
- The date string `datetime.now().strftime(...)` is a parameter.
- TaskText.ClockTextParses: states only that the time parses, not the hour and minute it parses to.
- Rerun.CleanRunLeavesNothingToCopy: stated for walks where no destination file is listed twice and no source file is also a destination file. A destination inside the source is not covered.
- WindowsApp.SecondStartFindsNothing: stated only for separate trees (`Separate`), as CleanRunLeavesNothingToCopy is. With overlapping trees the script itself can launch again: a copy can overwrite a source file that an earlier directory was copied from.
- MacApp.SecondStartFindsNothing: stated only for separate trees (`Separate`), for the same reason.
- `load_task` (filling the editor from a selected item), `preview_changes`, `plot_history` and the log and history list views are not part of the core and are not modelled.
