/** The copy pass of BackupThread.run, which both scripts share: walk the
    source, mirror each directory under the destination, tally folders and
    files, copy every visited file, collect per-file errors and emit one
    progress value per file. */
module CopyPass {
  import opened Wrappers
  import opened FileTree

  /** How a visited file is tallied before it is copied. */
  datatype FileClass = NewFile | NewerFile | Unchanged

  /** The effect of visiting one file: the file system after the copy,
      its tally and the error line it added, if any. */
  datatype FileOutcome = FileOutcome(fs: FileSystem, kind: FileClass, error: Option<string>)

  /** What the run cannot see in the file system: the reason shutil.copy2
      raises for a source file, the reason os.makedirs raises for a
      destination directory, and the modification time a new directory gets. */
  datatype Environment = Environment(copyFailures: map<Path, string>, mkdirFailures: map<Path, string>, now: int)

  /** The result record emitted through backup_finished. */
  datatype BackupResult = BackupResult(
    date: string,
    copiedFiles: nat,
    modifiedFiles: nat,
    copiedFolders: nat,
    modifiedFolders: nat,
    source: Path,
    destination: Path,
    errors: seq<string>)

  /** A run ends with backup_finished(result) or with error_occurred(messages). */
  datatype RunOutcome = Finished(result: BackupResult) | Failed(messages: seq<string>)

  /** The lists and the counter the loop accumulates. */
  datatype Tally = Tally(
    copiedFiles: seq<Path>,
    modifiedFiles: seq<Path>,
    copiedFolders: seq<Path>,
    modifiedFolders: seq<Path>,
    errors: seq<string>,
    processed: nat)

  /** The state of a pass: the file system, the tally, and the exception that
      ended the pass outside the per-file try, if any. */
  datatype PassState = PassState(fs: FileSystem, tally: Tally, fatal: Option<string>)

  const EmptyTally := Tally([], [], [], [], [], 0)

  /** The line appended to error_log when a file cannot be copied. */
  function CopyError(src: Path, dst: Path, reason: string): string
  {
    "Error copying " + src + " to " + dst + ": " + reason
  }

  /** Why the per-file try raises for `src`, or None: a missing source makes
      getmtime or copy2 raise, otherwise the environment decides. */
  function CopyFailure(fs: FileSystem, src: Path, copyFailures: map<Path, string>): Option<string>
  {
    if src !in fs then Some(NotFound(src))
    else if src in copyFailures then Some(copyFailures[src])
    else None
  }

  /** One iteration of the per-file loop. */
  function VisitFile(fs: FileSystem, src: Path, dst: Path, copyFailures: map<Path, string>): (r: FileOutcome)
    ensures r.kind == NewFile <==> dst !in fs
    ensures r.kind == NewerFile <==> dst in fs && src in fs && fs[src].mtime > fs[dst].mtime
    ensures r.error.None? <==> src in fs && src !in copyFailures
    ensures r.error.None? ==> r.fs == fs[dst := fs[src]]
    ensures r.error.Some? ==> r.fs == fs && r.error.value == CopyError(src, dst, CopyFailure(fs, src, copyFailures).value)
  {
    var kind :=
      if dst !in fs then NewFile
      else if src in fs && fs[src].mtime > fs[dst].mtime then NewerFile
      else Unchanged;
    match CopyFailure(fs, src, copyFailures)
    case Some(reason) => FileOutcome(fs, kind, Some(CopyError(src, dst, reason)))
    case None => FileOutcome(fs[dst := fs[src]], kind, None)
  }

  /** Adds one visited file to the tally. */
  function Record(t: Tally, dst: Path, o: FileOutcome): Tally
  {
    t.(copiedFiles := if o.kind == NewFile then t.copiedFiles + [dst] else t.copiedFiles,
       modifiedFiles := if o.kind == NewerFile then t.modifiedFiles + [dst] else t.modifiedFiles,
       errors := if o.error.Some? then t.errors + [o.error.value] else t.errors,
       processed := t.processed + 1)
  }

  /** The per-file loop over the files of one directory. */
  function VisitFiles(st: PassState, srcDir: Path, dstDir: Path, names: seq<string>, copyFailures: map<Path, string>): PassState
    decreases |names|
  {
    if names == [] then st
    else
      var dst := Join(dstDir, names[0]);
      var o := VisitFile(st.fs, Join(srcDir, names[0]), dst, copyFailures);
      VisitFiles(PassState(o.fs, Record(st.tally, dst, o), st.fatal), srcDir, dstDir, names[1..], copyFailures)
  }

  /** The folder step: an absent mirror is created (or makedirs raises and
      the pass ends), a present one is tallied as modified. */
  function EnterDir(st: PassState, dstDir: Path, env: Environment): PassState
  {
    if dstDir in st.fs then
      st.(tally := st.tally.(modifiedFolders := st.tally.modifiedFolders + [dstDir]))
    else if dstDir in env.mkdirFailures then
      st.(fatal := Some(env.mkdirFailures[dstDir]))
    else
      PassState(st.fs[dstDir := Dir(env.now, 0)], st.tally.(copiedFolders := st.tally.copiedFolders + [dstDir]), st.fatal)
  }

  /** The walk loop from state `st` over the remaining walk steps. */
  function WalkFrom(st: PassState, source: Path, destination: Path, walk: seq<WalkStep>, env: Environment): PassState
    decreases |walk|
  {
    if st.fatal.Some? || walk == [] then st
    else
      var dstDir := Mirror(destination, walk[0].rel);
      var entered := EnterDir(st, dstDir, env);
      if entered.fatal.Some? then entered
      else
        var visited := VisitFiles(entered, Mirror(source, walk[0].rel), dstDir, walk[0].files, env.copyFailures);
        WalkFrom(visited, source, destination, walk[1..], env)
  }

  /** The whole pass, from an empty tally. */
  function Pass(fs: FileSystem, source: Path, destination: Path, walk: seq<WalkStep>, env: Environment): PassState
  {
    WalkFrom(PassState(fs, EmptyTally, None), source, destination, walk, env)
  }

  /** The signal a finished pass emits. */
  function Report(st: PassState, date: string, source: Path, destination: Path): RunOutcome
  {
    match st.fatal
    case Some(message) => Failed([message])
    case None =>
      var t := st.tally;
      Finished(BackupResult(date, |t.copiedFiles|, |t.modifiedFiles|, |t.copiedFolders|, |t.modifiedFolders|,
                            source, destination, t.errors))
  }

  /** The progress value after `k` of `total` files, int(k / total * 100)
      computed on integers. */
  function Percent(k: nat, total: nat): int
    requires 0 < total
  {
    k * 100 / total
  }

  /** The progress values emitted after the first `k` files. */
  function Progress(k: nat, total: nat): seq<int>
    requires k <= total
    decreases k
  {
    if k == 0 then [] else Progress(k - 1, total) + [Percent(k, total)]
  }

  /** Percentages lie in 0..100 and grow with the number of files done. */
  lemma PercentBounds(k: nat, total: nat)
    requires k <= total && 0 < total
    ensures 0 <= Percent(k, total) <= 100
    ensures k == total ==> Percent(k, total) == 100
  {
    var a, q, r := k * 100, k * 100 / total, k * 100 % total;
    assert a == total * q + r && 0 <= r < total;
    MultiplyMonotone(100, k, total);
    if q < 0 {
      MultiplyMonotone(total, q, -1);
    }
    if q > 100 {
      MultiplyMonotone(total, 101, q);
    }
    if k == total && q < 100 {
      MultiplyMonotone(total, q, 99);
    }
  }

  lemma PercentMonotone(k: nat, m: nat, total: nat)
    requires k <= m && 0 < total
    ensures Percent(k, total) <= Percent(m, total)
  {
    var a, b := k * 100, m * 100;
    var qa, qb := a / total, b / total;
    assert a == total * qa + a % total;
    assert b == total * qb + b % total;
    if qa > qb {
      MultiplyMonotone(total, qb + 1, qa);
      assert false;
    }
  }

  lemma MultiplyMonotone(n: nat, x: int, y: int)
    requires x <= y
    ensures n * x <= n * y
  {
  }

  /** The i-th progress value is the percentage after file i + 1. */
  lemma {:induction false} ProgressAt(k: nat, total: nat)
    requires k <= total
    ensures |Progress(k, total)| == k
    ensures forall i :: 0 <= i < k ==> Progress(k, total)[i] == Percent(i + 1, total)
  {
    if k > 0 {
      ProgressAt(k - 1, total);
    }
  }

  /** Progress values lie in 0..100, never decrease, and the last one after
      all files is 100. */
  lemma ProgressShape(k: nat, total: nat)
    requires k <= total
    ensures |Progress(k, total)| == k
    ensures forall i :: 0 <= i < k ==> 0 <= Progress(k, total)[i] <= 100
    ensures forall i, j :: 0 <= i <= j < k ==> Progress(k, total)[i] <= Progress(k, total)[j]
    ensures 0 < k == total ==> Progress(k, total)[k - 1] == 100
  {
    ProgressAt(k, total);
    var p := Progress(k, total);
    forall i | 0 <= i < k
      ensures 0 <= p[i] <= 100
    {
      PercentBounds(i + 1, total);
    }
    forall i, j | 0 <= i <= j < k
      ensures p[i] <= p[j]
    {
      PercentMonotone(i + 1, j + 1, total);
    }
    if 0 < k == total {
      PercentBounds(k, total);
    }
  }

  /** The per-file loop leaves the folder tallies and the fatal slot alone. */
  lemma {:induction false} VisitFilesKeepsFolders(st: PassState, srcDir: Path, dstDir: Path, names: seq<string>, copyFailures: map<Path, string>)
    ensures var r := VisitFiles(st, srcDir, dstDir, names, copyFailures);
      && r.fatal == st.fatal
      && r.tally.copiedFolders == st.tally.copiedFolders
      && r.tally.modifiedFolders == st.tally.modifiedFolders
    decreases |names|
  {
    if names != [] {
      var dst := Join(dstDir, names[0]);
      var o := VisitFile(st.fs, Join(srcDir, names[0]), dst, copyFailures);
      VisitFilesKeepsFolders(PassState(o.fs, Record(st.tally, dst, o), st.fatal), srcDir, dstDir, names[1..], copyFailures);
    }
  }

  /** The per-file loop tallies each visited file at most once, emits one
      progress step per file, adds at most one error per file, touches no
      folder tally and removes no path. */
  lemma {:induction false} VisitFilesCounts(st: PassState, srcDir: Path, dstDir: Path, names: seq<string>, copyFailures: map<Path, string>)
    ensures var r := VisitFiles(st, srcDir, dstDir, names, copyFailures);
      && r.fatal == st.fatal
      && r.tally.copiedFolders == st.tally.copiedFolders
      && r.tally.modifiedFolders == st.tally.modifiedFolders
      && r.tally.processed == st.tally.processed + |names|
      && |st.tally.errors| <= |r.tally.errors| <= |st.tally.errors| + |names|
      && multiset(r.tally.copiedFiles + r.tally.modifiedFiles)
         <= multiset(st.tally.copiedFiles + st.tally.modifiedFiles) + multiset(JoinAll(dstDir, names))
      && st.fs.Keys <= r.fs.Keys
    decreases |names|
  {
    if names != [] {
      var dst := Join(dstDir, names[0]);
      var o := VisitFile(st.fs, Join(srcDir, names[0]), dst, copyFailures);
      var next := PassState(o.fs, Record(st.tally, dst, o), st.fatal);
      VisitFilesCounts(next, srcDir, dstDir, names[1..], copyFailures);
      assert JoinAll(dstDir, names) == [dst] + JoinAll(dstDir, names[1..]);
      assert multiset(next.tally.copiedFiles + next.tally.modifiedFiles)
          <= multiset(st.tally.copiedFiles + st.tally.modifiedFiles) + multiset{dst};
    }
  }

  /** One turn of the walk loop on a state that is not cut short: the folder
      step, then the per-file loop unless the folder step ended the pass. */
  function Turn(st: PassState, source: Path, destination: Path, step: WalkStep, env: Environment): PassState
  {
    var dstDir := Mirror(destination, step.rel);
    var entered := EnterDir(st, dstDir, env);
    if entered.fatal.Some? then entered
    else VisitFiles(entered, Mirror(source, step.rel), dstDir, step.files, env.copyFailures)
  }

  /** The walk loop is its turns, one after the other. */
  lemma WalkFromTurn(st: PassState, source: Path, destination: Path, walk: seq<WalkStep>, env: Environment)
    requires st.fatal.None? && walk != []
    ensures var t := Turn(st, source, destination, walk[0], env);
      WalkFrom(st, source, destination, walk, env)
      == if t.fatal.Some? then t else WalkFrom(t, source, destination, walk[1..], env)
  {
  }

  /** The folder step tallies its directory once, in one of the two lists. */
  lemma EnterDirCountsOnce(st: PassState, dstDir: Path, env: Environment)
    requires EnterDir(st, dstDir, env).fatal.None?
    ensures var e := EnterDir(st, dstDir, env);
      multiset(e.tally.copiedFolders + e.tally.modifiedFolders)
      == multiset(st.tally.copiedFolders + st.tally.modifiedFolders) + multiset{dstDir}
  {
    var a, b := st.tally.copiedFolders, st.tally.modifiedFolders;
    var e := EnterDir(st, dstDir, env);
    if dstDir in st.fs {
      assert e.tally.copiedFolders + e.tally.modifiedFolders == (a + b) + [dstDir];
    } else {
      assert e.tally.copiedFolders + e.tally.modifiedFolders == (a + [dstDir]) + b;
    }
  }

  /** Every walked directory is tallied exactly once, as a copied folder or
      as a modified folder, when the pass is not cut short. */
  lemma {:induction false} WalkCountsFolders(st: PassState, source: Path, destination: Path, walk: seq<WalkStep>, env: Environment)
    requires st.fatal.None?
    ensures var r := WalkFrom(st, source, destination, walk, env);
      r.fatal.None? ==>
        multiset(r.tally.copiedFolders + r.tally.modifiedFolders)
        == multiset(st.tally.copiedFolders + st.tally.modifiedFolders) + multiset(MirroredDirs(destination, walk))
    decreases |walk|
  {
    if walk != [] {
      var dstDir := Mirror(destination, walk[0].rel);
      var t := Turn(st, source, destination, walk[0], env);
      WalkFromTurn(st, source, destination, walk, env);
      if t.fatal.None? {
        TurnCountsFolder(st, source, destination, walk[0], env);
        WalkCountsFolders(t, source, destination, walk[1..], env);
        assert MirroredDirs(destination, walk) == [dstDir] + MirroredDirs(destination, walk[1..]);
      }
    }
  }

  /** A turn that is not cut short tallies its directory once. */
  lemma TurnCountsFolder(st: PassState, source: Path, destination: Path, step: WalkStep, env: Environment)
    requires Turn(st, source, destination, step, env).fatal.None?
    ensures var t := Turn(st, source, destination, step, env);
      multiset(t.tally.copiedFolders + t.tally.modifiedFolders)
      == multiset(st.tally.copiedFolders + st.tally.modifiedFolders) + multiset{Mirror(destination, step.rel)}
  {
    var dstDir := Mirror(destination, step.rel);
    EnterDirCountsOnce(st, dstDir, env);
    VisitFilesKeepsFolders(EnterDir(st, dstDir, env), Mirror(source, step.rel), dstDir, step.files, env.copyFailures);
  }

  /** Files: one progress step per visited file (all of them when the pass
      is not cut short), at most one error per file, and each tallied
      destination file is a visited file, tallied at most once. */
  lemma {:induction false} WalkCountsFiles(st: PassState, source: Path, destination: Path, walk: seq<WalkStep>, env: Environment)
    requires st.fatal.None?
    ensures var r := WalkFrom(st, source, destination, walk, env);
      && st.tally.processed <= r.tally.processed <= st.tally.processed + FileCount(walk)
      && (r.fatal.None? ==> r.tally.processed == st.tally.processed + FileCount(walk))
      && |st.tally.errors| <= |r.tally.errors| <= |st.tally.errors| + (r.tally.processed - st.tally.processed)
      && multiset(r.tally.copiedFiles + r.tally.modifiedFiles)
         <= multiset(st.tally.copiedFiles + st.tally.modifiedFiles) + multiset(MirroredFiles(destination, walk))
    decreases |walk|
  {
    if walk != [] {
      var dstDir := Mirror(destination, walk[0].rel);
      var entered := EnterDir(st, dstDir, env);
      if entered.fatal.None? {
        var visited := VisitFiles(entered, Mirror(source, walk[0].rel), dstDir, walk[0].files, env.copyFailures);
        VisitFilesCounts(entered, Mirror(source, walk[0].rel), dstDir, walk[0].files, env.copyFailures);
        WalkCountsFiles(visited, source, destination, walk[1..], env);
      }
    }
  }

  /** The pass never removes a path, and when it is not cut short every
      walked directory has its mirror under the destination afterwards. */
  lemma {:induction false} WalkKeepsPaths(st: PassState, source: Path, destination: Path, walk: seq<WalkStep>, env: Environment)
    requires st.fatal.None?
    ensures var r := WalkFrom(st, source, destination, walk, env);
      && st.fs.Keys <= r.fs.Keys
      && (r.fatal.None? ==> forall d :: d in MirroredDirs(destination, walk) ==> d in r.fs)
      && (r.fatal.Some? ==> r.fatal.value in env.mkdirFailures.Values)
    decreases |walk|
  {
    if walk != [] {
      var dstDir := Mirror(destination, walk[0].rel);
      var entered := EnterDir(st, dstDir, env);
      if entered.fatal.None? {
        var visited := VisitFiles(entered, Mirror(source, walk[0].rel), dstDir, walk[0].files, env.copyFailures);
        VisitFilesCounts(entered, Mirror(source, walk[0].rel), dstDir, walk[0].files, env.copyFailures);
        WalkKeepsPaths(visited, source, destination, walk[1..], env);
        assert MirroredDirs(destination, walk) == [dstDir] + MirroredDirs(destination, walk[1..]);
      }
    }
  }

  /** The folder tallies only grow: whatever a state has tallied stays at
      the front of the lists. */
  lemma {:induction false} WalkExtendsFolders(st: PassState, source: Path, destination: Path, walk: seq<WalkStep>, env: Environment)
    ensures var r := WalkFrom(st, source, destination, walk, env);
      st.tally.copiedFolders <= r.tally.copiedFolders && st.tally.modifiedFolders <= r.tally.modifiedFolders
    decreases |walk|
  {
    if st.fatal.None? && walk != [] {
      var dstDir := Mirror(destination, walk[0].rel);
      var entered := EnterDir(st, dstDir, env);
      if entered.fatal.None? {
        var visited := VisitFiles(entered, Mirror(source, walk[0].rel), dstDir, walk[0].files, env.copyFailures);
        VisitFilesKeepsFolders(entered, Mirror(source, walk[0].rel), dstDir, walk[0].files, env.copyFailures);
        WalkExtendsFolders(visited, source, destination, walk[1..], env);
      }
    }
  }

  /** The walk starts at the source itself, whose mirror is the destination:
      an existing destination is the first modified folder; an absent one is
      created as the first copied folder, or, when makedirs raises there, the
      pass ends at once with nothing created, copied or tallied. */
  lemma PassEntersRootFirst(fs: FileSystem, source: Path, destination: Path, walk: seq<WalkStep>, env: Environment)
    requires walk != [] && walk[0].rel == "."
    ensures var r := Pass(fs, source, destination, walk, env);
      && (destination in fs ==> |r.tally.modifiedFolders| > 0 && r.tally.modifiedFolders[0] == destination)
      && (destination !in fs && destination !in env.mkdirFailures ==>
            |r.tally.copiedFolders| > 0 && r.tally.copiedFolders[0] == destination && destination in r.fs)
      && (destination !in fs && destination in env.mkdirFailures ==>
            r == PassState(fs, EmptyTally, Some(env.mkdirFailures[destination])))
  {
    var st := PassState(fs, EmptyTally, None);
    var entered := EnterDir(st, destination, env);
    assert Mirror(destination, walk[0].rel) == destination;
    if entered.fatal.None? {
      var visited := VisitFiles(entered, Mirror(source, walk[0].rel), destination, walk[0].files, env.copyFailures);
      VisitFilesCounts(entered, Mirror(source, walk[0].rel), destination, walk[0].files, env.copyFailures);
      WalkExtendsFolders(visited, source, destination, walk[1..], env);
      WalkKeepsPaths(visited, source, destination, walk[1..], env);
      assert Pass(fs, source, destination, walk, env) == WalkFrom(visited, source, destination, walk[1..], env);
    }
  }

  /** One turn of the per-file loop. */
  lemma VisitFilesStep(st: PassState, srcDir: Path, dstDir: Path, names: seq<string>, copyFailures: map<Path, string>)
    requires names != []
    ensures var o := VisitFile(st.fs, Join(srcDir, names[0]), Join(dstDir, names[0]), copyFailures);
      VisitFiles(st, srcDir, dstDir, names, copyFailures)
      == VisitFiles(PassState(o.fs, Record(st.tally, Join(dstDir, names[0]), o), st.fatal), srcDir, dstDir, names[1..], copyFailures)
  {
  }

  /** The body of the per-file loop: the try block that tallies and copies
      one file, the except clause that logs its error, and the counter. */
  method CopyOne(fs: FileSystem, tally: Tally, srcFile: Path, dstFile: Path, copyFailures: map<Path, string>)
    returns (fs': FileSystem, tally': Tally)
    ensures var o := VisitFile(fs, srcFile, dstFile, copyFailures);
      fs' == o.fs && tally' == Record(tally, dstFile, o)
  {
    fs', tally' := fs, tally;
    if dstFile !in fs {
      tally' := tally'.(copiedFiles := tally'.copiedFiles + [dstFile]);
    } else if srcFile in fs && fs[srcFile].mtime > fs[dstFile].mtime {
      tally' := tally'.(modifiedFiles := tally'.modifiedFiles + [dstFile]);
    }
    if srcFile !in fs {
      tally' := tally'.(errors := tally'.errors + [CopyError(srcFile, dstFile, NotFound(srcFile))]);
    } else if srcFile in copyFailures {
      tally' := tally'.(errors := tally'.errors + [CopyError(srcFile, dstFile, copyFailures[srcFile])]);
    } else {
      fs' := fs[dstFile := fs[srcFile]];
    }
    tally' := tally'.(processed := tally'.processed + 1);
  }

  /** progress_update.emit after the k-th file. */
  method Emit(progress: seq<int>, k: nat, total: nat) returns (progress': seq<int>)
    requires 0 < k <= total && progress == Progress(k - 1, total)
    ensures progress' == Progress(k, total)
  {
    progress' := progress + [k * 100 / total];
  }

  /** The inner loop of BackupThread.run over the files of one walked
      directory: tally, copy, record the error if any, emit progress. */
  method CopyFiles(fs: FileSystem, tally: Tally, srcDir: Path, dstDir: Path, files: seq<string>,
                   copyFailures: map<Path, string>, total: nat, progress: seq<int>)
    returns (fs': FileSystem, tally': Tally, progress': seq<int>)
    requires tally.processed + |files| <= total
    requires progress == Progress(tally.processed, total)
    ensures PassState(fs', tally', None) == VisitFiles(PassState(fs, tally, None), srcDir, dstDir, files, copyFailures)
    ensures tally'.processed == tally.processed + |files|
    ensures progress' == Progress(tally'.processed, total)
  {
    fs', tally', progress' := fs, tally, progress;
    var j := 0;
    while j < |files|
      invariant 0 <= j <= |files|
      invariant tally'.processed == tally.processed + j
      invariant progress' == Progress(tally'.processed, total)
      invariant VisitFiles(PassState(fs, tally, None), srcDir, dstDir, files, copyFailures)
        == VisitFiles(PassState(fs', tally', None), srcDir, dstDir, files[j..], copyFailures)
    {
      VisitFilesStep(PassState(fs', tally', None), srcDir, dstDir, files[j..], copyFailures);
      assert files[j..][0] == files[j] && files[j..][1..] == files[j + 1..];
      fs', tally' := CopyOne(fs', tally', Join(srcDir, files[j]), Join(dstDir, files[j]), copyFailures);
      progress' := Emit(progress', tally'.processed, total);
      j := j + 1;
    }
    assert files[j..] == [];
  }

  /** One turn of the walk loop of BackupThread.run: the folder step, then
      the per-file loop unless os.makedirs raised. */
  method RunTurn(st: PassState, source: Path, destination: Path, step: WalkStep, env: Environment,
                 total: nat, progress: seq<int>)
    returns (st': PassState, progress': seq<int>)
    requires st.fatal.None? && st.tally.processed + |step.files| <= total
    requires progress == Progress(st.tally.processed, total)
    ensures st' == Turn(st, source, destination, step, env)
    ensures st'.fatal.Some? ==> st'.tally == st.tally && progress' == progress
    ensures st'.fatal.None? ==>
      st'.tally.processed == st.tally.processed + |step.files| && progress' == Progress(st'.tally.processed, total)
  {
    var dstDir := Mirror(destination, step.rel);
    var fs, tally := st.fs, st.tally;
    progress' := progress;
    if dstDir !in fs {
      if dstDir in env.mkdirFailures {
        return st.(fatal := Some(env.mkdirFailures[dstDir])), progress;
      }
      fs := fs[dstDir := Dir(env.now, 0)];
      tally := tally.(copiedFolders := tally.copiedFolders + [dstDir]);
    } else {
      tally := tally.(modifiedFolders := tally.modifiedFolders + [dstDir]);
    }
    fs, tally, progress' := CopyFiles(fs, tally, Mirror(source, step.rel), dstDir, step.files, env.copyFailures, total, progress);
    st' := PassState(fs, tally, None);
  }

  /** A pass never counts more files than the walk lists. */
  lemma PassCountsFiles(fs: FileSystem, source: Path, destination: Path, walk: seq<WalkStep>, env: Environment)
    ensures Pass(fs, source, destination, walk, env).tally.processed <= FileCount(walk)
  {
    WalkCountsFiles(PassState(fs, EmptyTally, None), source, destination, walk, env);
  }

  /** The loop of BackupThread.run, from the line that computes total_files:
      it returns the destination file system after the pass, the progress
      values emitted, and the signal that ends the run. */
  method RunPass(fs: FileSystem, source: Path, destination: Path, walk: seq<WalkStep>, env: Environment, date: string)
    returns (fs': FileSystem, progress: seq<int>, outcome: RunOutcome)
    ensures Pass(fs, source, destination, walk, env).tally.processed <= FileCount(walk)
    ensures var st := Pass(fs, source, destination, walk, env);
      && fs' == st.fs
      && progress == Progress(st.tally.processed, FileCount(walk))
      && outcome == Report(st, date, source, destination)
  {
    PassCountsFiles(fs, source, destination, walk, env);
    var total := FileCount(walk);
    var st := PassState(fs, EmptyTally, None);
    progress := [];
    var i := 0;
    while i < |walk|
      invariant 0 <= i <= |walk| && st.fatal.None?
      invariant st.tally.processed + FileCount(walk[i..]) == total
      invariant progress == Progress(st.tally.processed, total)
      invariant Pass(fs, source, destination, walk, env) == WalkFrom(st, source, destination, walk[i..], env)
    {
      assert walk[i..][0] == walk[i] && walk[i..][1..] == walk[i + 1..];
      WalkFromTurn(st, source, destination, walk[i..], env);
      st, progress := RunTurn(st, source, destination, walk[i], env, total, progress);
      if st.fatal.Some? {
        fs', outcome := st.fs, Failed([st.fatal.value]);
        return;
      }
      i := i + 1;
    }
    fs' := st.fs;
    outcome := Finished(BackupResult(date, |st.tally.copiedFiles|, |st.tally.modifiedFiles|, |st.tally.copiedFolders|,
                                     |st.tally.modifiedFolders|, source, destination, st.tally.errors));
  }
}
