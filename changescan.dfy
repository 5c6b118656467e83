/** get_changes: the read-only comparison of the source tree with the
    destination that fills the preview lists and decides whether
    start_backup launches a run. */
module ChangeScan {
  import opened Wrappers
  import opened FileTree

  /** new_files (absent folders and files), modified_files and total_size. */
  datatype Changes = Changes(newEntries: seq<string>, modifiedEntries: seq<Path>, totalSize: nat)

  const NoChanges := Changes([], [], 0)

  /** The entry an absent mirrored directory adds to new_files. */
  function NewFolderEntry(dstDir: Path): string
  {
    "New folder: " + dstDir
  }

  /** A file needs copying: absent at the destination, or strictly newer at the source. */
  predicate Pending(fs: FileSystem, src: Path, dst: Path)
  {
    dst !in fs || (src in fs && fs[src].mtime > fs[dst].mtime)
  }

  /** The inner loop over the files of one directory; getsize of a missing
      source file raises, and nothing catches it. */
  function ScanFiles(fs: FileSystem, srcDir: Path, dstDir: Path, names: seq<string>, acc: Changes): Result<Changes, string>
    decreases |names|
  {
    if names == [] then Ok(acc)
    else
      var src, dst := Join(srcDir, names[0]), Join(dstDir, names[0]);
      if src !in fs then Err(NotFound(src))
      else
        var next :=
          if dst !in fs then acc.(newEntries := acc.newEntries + [dst], totalSize := acc.totalSize + fs[src].size)
          else if fs[src].mtime > fs[dst].mtime then
            acc.(modifiedEntries := acc.modifiedEntries + [dst], totalSize := acc.totalSize + fs[src].size)
          else acc;
        ScanFiles(fs, srcDir, dstDir, names[1..], next)
  }

  /** The folder step: an absent mirror adds a "New folder" entry. */
  function ScanDir(fs: FileSystem, dstDir: Path, acc: Changes): Changes
  {
    if dstDir !in fs then acc.(newEntries := acc.newEntries + [NewFolderEntry(dstDir)]) else acc
  }

  /** The outer loop over the remaining walk steps. */
  function ScanFrom(fs: FileSystem, source: Path, destination: Path, walk: seq<WalkStep>, acc: Changes): Result<Changes, string>
    decreases |walk|
  {
    if walk == [] then Ok(acc)
    else
      var dstDir := Mirror(destination, walk[0].rel);
      match ScanFiles(fs, Mirror(source, walk[0].rel), dstDir, walk[0].files, ScanDir(fs, dstDir, acc))
      case Err(e) => Err(e)
      case Ok(next) => ScanFrom(fs, source, destination, walk[1..], next)
  }

  /** get_changes over the whole walk. */
  function Scan(fs: FileSystem, source: Path, destination: Path, walk: seq<WalkStep>): Result<Changes, string>
  {
    ScanFrom(fs, source, destination, walk, NoChanges)
  }

  /** Every source file of one directory exists (getsize succeeds). */
  ghost predicate FilesPresent(fs: FileSystem, srcDir: Path, names: seq<string>)
  {
    forall i :: 0 <= i < |names| ==> Join(srcDir, names[i]) in fs
  }

  /** Every source file the walk lists exists. */
  ghost predicate SourcesPresent(fs: FileSystem, source: Path, walk: seq<WalkStep>)
  {
    forall k :: 0 <= k < |walk| ==> FilesPresent(fs, Mirror(source, walk[k].rel), walk[k].files)
  }

  /** No file of one directory needs copying. */
  ghost predicate FilesUpToDate(fs: FileSystem, srcDir: Path, dstDir: Path, names: seq<string>)
  {
    forall i :: 0 <= i < |names| ==> !Pending(fs, Join(srcDir, names[i]), Join(dstDir, names[i]))
  }

  /** The destination already mirrors the source: every walked directory has
      its mirror and no listed file needs copying. */
  ghost predicate UpToDate(fs: FileSystem, source: Path, destination: Path, walk: seq<WalkStep>)
  {
    forall k :: 0 <= k < |walk| ==>
      && Mirror(destination, walk[k].rel) in fs
      && FilesUpToDate(fs, Mirror(source, walk[k].rel), Mirror(destination, walk[k].rel), walk[k].files)
  }

  /** The bytes of the files of one directory that need copying. */
  function FilesPendingBytes(fs: FileSystem, srcDir: Path, dstDir: Path, names: seq<string>): nat
    decreases |names|
  {
    if names == [] then 0
    else
      var src := Join(srcDir, names[0]);
      (if src in fs && Pending(fs, src, Join(dstDir, names[0])) then fs[src].size else 0)
      + FilesPendingBytes(fs, srcDir, dstDir, names[1..])
  }

  /** The bytes of all listed files that need copying. */
  function PendingBytes(fs: FileSystem, source: Path, destination: Path, walk: seq<WalkStep>): nat
    decreases |walk|
  {
    if walk == [] then 0
    else FilesPendingBytes(fs, Mirror(source, walk[0].rel), Mirror(destination, walk[0].rel), walk[0].files)
         + PendingBytes(fs, source, destination, walk[1..])
  }

  /** The destination paths of one directory's files that are absent at
      the destination, in order: what the per-file loop puts in new_files. */
  function AbsentFiles(fs: FileSystem, dstDir: Path, names: seq<string>): seq<Path>
    decreases |names|
  {
    if names == [] then []
    else
      var dst := Join(dstDir, names[0]);
      (if dst !in fs then [dst] else []) + AbsentFiles(fs, dstDir, names[1..])
  }

  /** A file present at both ends whose source copy is strictly newer. */
  predicate Newer(fs: FileSystem, src: Path, dst: Path)
  {
    src in fs && dst in fs && fs[src].mtime > fs[dst].mtime
  }

  /** The destination paths of one directory's files that exist there but
      are older than their source, in order: what goes into modified_files. */
  function NewerFiles(fs: FileSystem, srcDir: Path, dstDir: Path, names: seq<string>): seq<Path>
    decreases |names|
  {
    if names == [] then []
    else
      var dst := Join(dstDir, names[0]);
      (if Newer(fs, Join(srcDir, names[0]), dst) then [dst] else []) + NewerFiles(fs, srcDir, dstDir, names[1..])
  }

  /** new_files over the walk: per directory, a "New folder" entry when its
      mirror is absent, then its absent files. */
  function NewEntries(fs: FileSystem, destination: Path, walk: seq<WalkStep>): seq<string>
    decreases |walk|
  {
    if walk == [] then []
    else
      var dstDir := Mirror(destination, walk[0].rel);
      (if dstDir !in fs then [NewFolderEntry(dstDir)] else []) + AbsentFiles(fs, dstDir, walk[0].files)
      + NewEntries(fs, destination, walk[1..])
  }

  /** modified_files over the walk. */
  function ModifiedEntries(fs: FileSystem, source: Path, destination: Path, walk: seq<WalkStep>): seq<Path>
    decreases |walk|
  {
    if walk == [] then []
    else
      NewerFiles(fs, Mirror(source, walk[0].rel), Mirror(destination, walk[0].rel), walk[0].files)
      + ModifiedEntries(fs, source, destination, walk[1..])
  }

  /** A path is listed as absent exactly when it is one of the directory's
      destination files and does not exist. */
  lemma {:induction false} AbsentFilesMembers(fs: FileSystem, dstDir: Path, names: seq<string>)
    ensures forall p :: p in AbsentFiles(fs, dstDir, names) <==> p in JoinAll(dstDir, names) && p !in fs
    decreases |names|
  {
    if names != [] {
      AbsentFilesMembers(fs, dstDir, names[1..]);
    }
  }

  /** A path is listed as modified exactly when it is the destination file
      of some name whose source copy is strictly newer. */
  lemma {:induction false} NewerFilesMembers(fs: FileSystem, srcDir: Path, dstDir: Path, names: seq<string>, p: Path)
    ensures p in NewerFiles(fs, srcDir, dstDir, names)
      <==> exists i :: 0 <= i < |names| && p == Join(dstDir, names[i]) && Newer(fs, Join(srcDir, names[i]), p)
    decreases |names|
  {
    if names != [] {
      NewerFilesMembers(fs, srcDir, dstDir, names[1..], p);
      if p in NewerFiles(fs, srcDir, dstDir, names[1..]) {
        var i :| 0 <= i < |names[1..]| && p == Join(dstDir, names[1..][i]) && Newer(fs, Join(srcDir, names[1..][i]), p);
        assert names[i + 1] == names[1..][i];
      }
      if exists i :: 0 <= i < |names| && p == Join(dstDir, names[i]) && Newer(fs, Join(srcDir, names[i]), p) {
        var i :| 0 <= i < |names| && p == Join(dstDir, names[i]) && Newer(fs, Join(srcDir, names[i]), p);
        if i > 0 {
          assert names[1..][i - 1] == names[i];
        }
      }
    }
  }

  /** With every source file present, a directory's files are up to date
      exactly when none is absent and none is older at the destination. */
  lemma {:induction false} FilesUpToDateIff(fs: FileSystem, srcDir: Path, dstDir: Path, names: seq<string>)
    requires FilesPresent(fs, srcDir, names)
    ensures (AbsentFiles(fs, dstDir, names) == [] && NewerFiles(fs, srcDir, dstDir, names) == [])
      <==> FilesUpToDate(fs, srcDir, dstDir, names)
    decreases |names|
  {
    if names != [] {
      assert forall i :: 0 <= i < |names[1..]| ==> names[1..][i] == names[i + 1];
      FilesUpToDateIff(fs, srcDir, dstDir, names[1..]);
      assert FilesUpToDate(fs, srcDir, dstDir, names)
        <==> !Pending(fs, Join(srcDir, names[0]), Join(dstDir, names[0])) && FilesUpToDate(fs, srcDir, dstDir, names[1..]);
    }
  }

  /** With every source file present, the walk is up to date exactly when
      it yields no new and no modified entry. */
  lemma {:induction false} UpToDateIff(fs: FileSystem, source: Path, destination: Path, walk: seq<WalkStep>)
    requires SourcesPresent(fs, source, walk)
    ensures (NewEntries(fs, destination, walk) == [] && ModifiedEntries(fs, source, destination, walk) == [])
      <==> UpToDate(fs, source, destination, walk)
    decreases |walk|
  {
    if walk != [] {
      var srcDir, dstDir := Mirror(source, walk[0].rel), Mirror(destination, walk[0].rel);
      var rest := walk[1..];
      assert forall k :: 0 <= k < |rest| ==> rest[k] == walk[k + 1];
      assert FilesPresent(fs, srcDir, walk[0].files) && SourcesPresent(fs, source, rest);
      assert UpToDate(fs, source, destination, walk)
        <==> dstDir in fs && FilesUpToDate(fs, srcDir, dstDir, walk[0].files) && UpToDate(fs, source, destination, rest);
      FilesUpToDateIff(fs, srcDir, dstDir, walk[0].files);
      UpToDateIff(fs, source, destination, rest);
    }
  }

  /** The per-file loop fails exactly when a source file is missing. */
  lemma {:induction false} ScanFilesFails(fs: FileSystem, srcDir: Path, dstDir: Path, names: seq<string>, acc: Changes)
    ensures ScanFiles(fs, srcDir, dstDir, names, acc).Err? <==> !FilesPresent(fs, srcDir, names)
    decreases |names|
  {
    if names != [] {
      var src, dst := Join(srcDir, names[0]), Join(dstDir, names[0]);
      assert forall i :: 0 <= i < |names[1..]| ==> names[1..][i] == names[i + 1];
      if src in fs {
        var next :=
          if dst !in fs then acc.(newEntries := acc.newEntries + [dst], totalSize := acc.totalSize + fs[src].size)
          else if fs[src].mtime > fs[dst].mtime then
            acc.(modifiedEntries := acc.modifiedEntries + [dst], totalSize := acc.totalSize + fs[src].size)
          else acc;
        ScanFilesFails(fs, srcDir, dstDir, names[1..], next);
        assert FilesPresent(fs, srcDir, names) <==> FilesPresent(fs, srcDir, names[1..]);
      } else {
        assert !FilesPresent(fs, srcDir, names);
      }
    }
  }

  /** A per-file loop that does not raise appends exactly the absent files
      to new_files, exactly the older ones to modified_files, and exactly
      their sizes to the total. */
  lemma {:induction false} ScanFilesFacts(fs: FileSystem, srcDir: Path, dstDir: Path, names: seq<string>, acc: Changes)
    ensures ScanFiles(fs, srcDir, dstDir, names, acc).Ok? ==>
      ScanFiles(fs, srcDir, dstDir, names, acc).value
      == Changes(acc.newEntries + AbsentFiles(fs, dstDir, names),
                 acc.modifiedEntries + NewerFiles(fs, srcDir, dstDir, names),
                 acc.totalSize + FilesPendingBytes(fs, srcDir, dstDir, names))
    decreases |names|
  {
    if names != [] {
      var src, dst := Join(srcDir, names[0]), Join(dstDir, names[0]);
      if src in fs {
        var add := if dst !in fs || fs[src].mtime > fs[dst].mtime then fs[src].size else 0;
        var a, n := if dst !in fs then [dst] else [], if Newer(fs, src, dst) then [dst] else [];
        var next := Changes(acc.newEntries + a, acc.modifiedEntries + n, acc.totalSize + add);
        assert acc.newEntries + [] == acc.newEntries && acc.modifiedEntries + [] == acc.modifiedEntries;
        ScanFilesStep(fs, srcDir, dstDir, names, acc);
        ScanFilesFacts(fs, srcDir, dstDir, names[1..], next);
        AppendAssoc(acc.newEntries, a, AbsentFiles(fs, dstDir, names[1..]));
        AppendAssoc(acc.modifiedEntries, n, NewerFiles(fs, srcDir, dstDir, names[1..]));
      }
    }
  }

  /** Walk level: get_changes raises exactly when a listed source file is
      missing. */
  lemma {:induction false} ScanFromFails(fs: FileSystem, source: Path, destination: Path, walk: seq<WalkStep>, acc: Changes)
    ensures ScanFrom(fs, source, destination, walk, acc).Err? <==> !SourcesPresent(fs, source, walk)
    decreases |walk|
  {
    if walk != [] {
      var srcDir, dstDir := Mirror(source, walk[0].rel), Mirror(destination, walk[0].rel);
      var rest := walk[1..];
      assert forall k :: 0 <= k < |rest| ==> rest[k] == walk[k + 1];
      assert SourcesPresent(fs, source, walk)
        <==> FilesPresent(fs, srcDir, walk[0].files) && SourcesPresent(fs, source, rest);
      ScanFilesFails(fs, srcDir, dstDir, walk[0].files, ScanDir(fs, dstDir, acc));
      match ScanFiles(fs, srcDir, dstDir, walk[0].files, ScanDir(fs, dstDir, acc))
      case Err(_) =>
      case Ok(next) =>
        ScanFromFails(fs, source, destination, rest, next);
    }
  }

  /** Walk level: a scan that does not raise appends exactly the walk's new
      and modified entries to the lists and the size of the files that need
      copying to the total. */
  lemma {:induction false} ScanFromFacts(fs: FileSystem, source: Path, destination: Path, walk: seq<WalkStep>, acc: Changes)
    ensures ScanFrom(fs, source, destination, walk, acc).Ok? ==>
      ScanFrom(fs, source, destination, walk, acc).value
      == Changes(acc.newEntries + NewEntries(fs, destination, walk),
                 acc.modifiedEntries + ModifiedEntries(fs, source, destination, walk),
                 acc.totalSize + PendingBytes(fs, source, destination, walk))
    decreases |walk|
  {
    if walk != [] {
      var srcDir, dstDir := Mirror(source, walk[0].rel), Mirror(destination, walk[0].rel);
      var rest := walk[1..];
      var f := if dstDir !in fs then [NewFolderEntry(dstDir)] else [];
      var entered := Changes(acc.newEntries + f, acc.modifiedEntries, acc.totalSize);
      assert acc.newEntries + [] == acc.newEntries;
      assert ScanDir(fs, dstDir, acc) == entered;
      var r := ScanFiles(fs, srcDir, dstDir, walk[0].files, entered);
      if r.Ok? {
        ScanFilesFacts(fs, srcDir, dstDir, walk[0].files, entered);
        assert ScanFrom(fs, source, destination, walk, acc) == ScanFrom(fs, source, destination, rest, r.value);
        ScanFromFacts(fs, source, destination, rest, r.value);
        var a, e := AbsentFiles(fs, dstDir, walk[0].files), NewEntries(fs, destination, rest);
        var n, m := NewerFiles(fs, srcDir, dstDir, walk[0].files), ModifiedEntries(fs, source, destination, rest);
        var b := FilesPendingBytes(fs, srcDir, dstDir, walk[0].files);
        assert r.value == Changes(acc.newEntries + f + a, acc.modifiedEntries + n, acc.totalSize + b);
        assert NewEntries(fs, destination, walk) == f + a + e;
        assert ModifiedEntries(fs, source, destination, walk) == n + m;
        assert PendingBytes(fs, source, destination, walk) == b + PendingBytes(fs, source, destination, rest);
        AppendAssoc(acc.newEntries + f, a, e);
        AppendAssoc(acc.newEntries, f + a, e);
        AppendAssoc(acc.newEntries, f, a);
        AppendAssoc(acc.modifiedEntries, n, m);
      }
    }
  }

  lemma AppendAssoc<T>(a: seq<T>, b: seq<T>, c: seq<T>)
    ensures a + b + c == a + (b + c)
  {
  }

  /** start_backup's test: get_changes reports neither new nor modified
      entries exactly when the destination already mirrors the source. In
      particular an absent empty folder alone makes the lists non-empty. */
  lemma ScanEmptyIff(fs: FileSystem, source: Path, destination: Path, walk: seq<WalkStep>)
    requires Scan(fs, source, destination, walk).Ok?
    ensures var c := Scan(fs, source, destination, walk).value;
      (c.newEntries == [] && c.modifiedEntries == []) <==> UpToDate(fs, source, destination, walk)
  {
    ScanFromFails(fs, source, destination, walk, NoChanges);
    ScanFromFacts(fs, source, destination, walk, NoChanges);
    UpToDateIff(fs, source, destination, walk);
  }

  /** What get_changes returns when it does not raise: new_files holds the
      "New folder" entries and the absent files, modified_files the files
      older at the destination, and total_size the size of exactly those
      files. */
  lemma ScanContents(fs: FileSystem, source: Path, destination: Path, walk: seq<WalkStep>)
    requires Scan(fs, source, destination, walk).Ok?
    ensures Scan(fs, source, destination, walk).value
      == Changes(NewEntries(fs, destination, walk), ModifiedEntries(fs, source, destination, walk),
                 PendingBytes(fs, source, destination, walk))
  {
    ScanFromFacts(fs, source, destination, walk, NoChanges);
  }

  /** get_changes raises exactly when some listed source file is missing. */
  lemma ScanFailsIff(fs: FileSystem, source: Path, destination: Path, walk: seq<WalkStep>)
    ensures Scan(fs, source, destination, walk).Err? <==> !SourcesPresent(fs, source, walk)
  {
    ScanFromFails(fs, source, destination, walk, NoChanges);
  }

  /** One turn of the per-file scan, for a source file that exists. */
  lemma ScanFilesStep(fs: FileSystem, srcDir: Path, dstDir: Path, names: seq<string>, acc: Changes)
    requires names != [] && Join(srcDir, names[0]) in fs
    ensures var src, dst := Join(srcDir, names[0]), Join(dstDir, names[0]);
      ScanFiles(fs, srcDir, dstDir, names, acc)
      == ScanFiles(fs, srcDir, dstDir, names[1..],
           if dst !in fs then acc.(newEntries := acc.newEntries + [dst], totalSize := acc.totalSize + fs[src].size)
           else if fs[src].mtime > fs[dst].mtime then
             acc.(modifiedEntries := acc.modifiedEntries + [dst], totalSize := acc.totalSize + fs[src].size)
           else acc)
  {
  }

  /** The inner loop of get_changes over the files of one directory. */
  method ScanDirFiles(fs: FileSystem, srcDir: Path, dstDir: Path, files: seq<string>, acc: Changes) returns (r: Result<Changes, string>)
    ensures r == ScanFiles(fs, srcDir, dstDir, files, acc)
  {
    var newFiles, modifiedFiles, totalSize := acc.newEntries, acc.modifiedEntries, acc.totalSize;
    var j := 0;
    while j < |files|
      invariant 0 <= j <= |files|
      invariant ScanFiles(fs, srcDir, dstDir, files, acc)
        == ScanFiles(fs, srcDir, dstDir, files[j..], Changes(newFiles, modifiedFiles, totalSize))
    {
      var srcFile, dstFile := Join(srcDir, files[j]), Join(dstDir, files[j]);
      assert files[j..][0] == files[j] && files[j..][1..] == files[j + 1..];
      if srcFile !in fs {
        return Err(NotFound(srcFile));
      }
      ScanFilesStep(fs, srcDir, dstDir, files[j..], Changes(newFiles, modifiedFiles, totalSize));
      var fileSize := fs[srcFile].size;
      if dstFile !in fs {
        newFiles := newFiles + [dstFile];
        totalSize := totalSize + fileSize;
      } else if fs[srcFile].mtime > fs[dstFile].mtime {
        modifiedFiles := modifiedFiles + [dstFile];
        totalSize := totalSize + fileSize;
      }
      j := j + 1;
    }
    assert files[j..] == [];
    return Ok(Changes(newFiles, modifiedFiles, totalSize));
  }

  /** get_changes: the walk loop, reading the file system and changing
      nothing; a missing source file makes getsize raise. */
  method GetChanges(fs: FileSystem, source: Path, destination: Path, walk: seq<WalkStep>) returns (r: Result<Changes, string>)
    ensures r == Scan(fs, source, destination, walk)
  {
    var newFiles: seq<string>, modifiedFiles: seq<Path>, totalSize: nat := [], [], 0;
    var i := 0;
    while i < |walk|
      invariant 0 <= i <= |walk|
      invariant Scan(fs, source, destination, walk) == ScanFrom(fs, source, destination, walk[i..], Changes(newFiles, modifiedFiles, totalSize))
    {
      var srcDir, dstDir := Mirror(source, walk[i].rel), Mirror(destination, walk[i].rel);
      assert walk[i..][0] == walk[i] && walk[i..][1..] == walk[i + 1..];
      if dstDir !in fs {
        newFiles := newFiles + [NewFolderEntry(dstDir)];
      }
      var scanned := ScanDirFiles(fs, srcDir, dstDir, walk[i].files, Changes(newFiles, modifiedFiles, totalSize));
      if scanned.Err? {
        return Err(scanned.error);
      }
      newFiles, modifiedFiles, totalSize := scanned.value.newEntries, scanned.value.modifiedEntries, scanned.value.totalSize;
      i := i + 1;
    }
    return Ok(Changes(newFiles, modifiedFiles, totalSize));
  }
}
