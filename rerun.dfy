/** What a clean run leaves behind: a pass of BackupThread.run that ends in
    backup_finished with an empty error list leaves a destination that
    get_changes finds up to date, so the same backup started again right
    away is refused with "No changes detected". */
module Rerun {
  import opened Wrappers
  import opened FileTree
  import opened CopyPass
  import opened ChangeScan

  /** The layout the argument needs: no destination file path is listed
      twice, and no source file is also a destination file (the destination
      does not overlap the files being backed up). */
  ghost predicate Separate(source: Path, destination: Path, walk: seq<WalkStep>)
  {
    && Distinct(MirroredFiles(destination, walk))
    && forall p :: p in MirroredFiles(source, walk) ==> p !in MirroredFiles(destination, walk)
  }

  /** The per-file loop writes only the destination files it visits. */
  lemma {:induction false} VisitFilesPreserves(st: PassState, srcDir: Path, dstDir: Path, names: seq<string>,
                                               copyFailures: map<Path, string>, p: Path)
    requires p in st.fs && p !in JoinAll(dstDir, names)
    ensures var r := VisitFiles(st, srcDir, dstDir, names, copyFailures);
      p in r.fs && r.fs[p] == st.fs[p]
    decreases |names|
  {
    if names != [] {
      var dst := Join(dstDir, names[0]);
      var o := VisitFile(st.fs, Join(srcDir, names[0]), dst, copyFailures);
      assert JoinAll(dstDir, names) == [dst] + JoinAll(dstDir, names[1..]);
      VisitFilesPreserves(PassState(o.fs, Record(st.tally, dst, o), st.fatal), srcDir, dstDir, names[1..], copyFailures, p);
    }
  }

  /** The walk writes a present path only when it is a destination file it
      visits: makedirs runs only on absent directories. */
  lemma {:induction false} WalkPreserves(st: PassState, source: Path, destination: Path, walk: seq<WalkStep>,
                                         env: Environment, p: Path)
    requires p in st.fs && p !in MirroredFiles(destination, walk)
    ensures var r := WalkFrom(st, source, destination, walk, env);
      p in r.fs && r.fs[p] == st.fs[p]
    decreases |walk|
  {
    if st.fatal.None? && walk != [] {
      var dstDir := Mirror(destination, walk[0].rel);
      var entered := EnterDir(st, dstDir, env);
      if entered.fatal.None? {
        assert MirroredFiles(destination, walk) == JoinAll(dstDir, walk[0].files) + MirroredFiles(destination, walk[1..]);
        VisitFilesPreserves(entered, Mirror(source, walk[0].rel), dstDir, walk[0].files, env.copyFailures, p);
        var visited := VisitFiles(entered, Mirror(source, walk[0].rel), dstDir, walk[0].files, env.copyFailures);
        WalkPreserves(visited, source, destination, walk[1..], env, p);
      }
    }
  }

  /** A per-file loop that adds no error copies every file: each source
      exists, and afterwards each destination file holds its source's entry
      while the sources stay as they were. */
  lemma {:induction false} VisitFilesClean(st: PassState, srcDir: Path, dstDir: Path, names: seq<string>,
                                           copyFailures: map<Path, string>)
    requires |VisitFiles(st, srcDir, dstDir, names, copyFailures).tally.errors| == |st.tally.errors|
    requires Distinct(JoinAll(dstDir, names))
    requires forall p :: p in JoinAll(srcDir, names) ==> p !in JoinAll(dstDir, names)
    ensures var r := VisitFiles(st, srcDir, dstDir, names, copyFailures);
      forall i :: 0 <= i < |names| ==>
        && Join(srcDir, names[i]) in st.fs
        && Join(srcDir, names[i]) in r.fs && r.fs[Join(srcDir, names[i])] == st.fs[Join(srcDir, names[i])]
        && Join(dstDir, names[i]) in r.fs && r.fs[Join(dstDir, names[i])] == st.fs[Join(srcDir, names[i])]
    decreases |names|
  {
    if names != [] {
      var src, dst := Join(srcDir, names[0]), Join(dstDir, names[0]);
      var o := VisitFile(st.fs, src, dst, copyFailures);
      var next := PassState(o.fs, Record(st.tally, dst, o), st.fatal);
      var r := VisitFiles(st, srcDir, dstDir, names, copyFailures);
      assert r == VisitFiles(next, srcDir, dstDir, names[1..], copyFailures);
      VisitFilesCounts(next, srcDir, dstDir, names[1..], copyFailures);
      assert o.error.None?;
      CleanParts(srcDir, dstDir, names);
      VisitFilesClean(next, srcDir, dstDir, names[1..], copyFailures);
      VisitFilesPreserves(next, srcDir, dstDir, names[1..], copyFailures, dst);
      VisitFilesPreserves(next, srcDir, dstDir, names[1..], copyFailures, src);
      assert src in st.fs && next.fs == st.fs[dst := st.fs[src]];
      assert r.fs[src] == st.fs[src] && r.fs[dst] == st.fs[src];
      forall i | 0 <= i < |names|
        ensures && Join(srcDir, names[i]) in st.fs
                && Join(srcDir, names[i]) in r.fs && r.fs[Join(srcDir, names[i])] == st.fs[Join(srcDir, names[i])]
                && Join(dstDir, names[i]) in r.fs && r.fs[Join(dstDir, names[i])] == st.fs[Join(srcDir, names[i])]
      {
        if i > 0 {
          assert names[1..][i - 1] == names[i];
        }
      }
    }
  }

  /** The layout conditions of VisitFilesClean for the first file and for
      the rest of the names. */
  lemma CleanParts(srcDir: Path, dstDir: Path, names: seq<string>)
    requires names != []
    requires Distinct(JoinAll(dstDir, names))
    requires forall p :: p in JoinAll(srcDir, names) ==> p !in JoinAll(dstDir, names)
    ensures var src, dst := Join(srcDir, names[0]), Join(dstDir, names[0]);
      var srcs, dsts := JoinAll(srcDir, names[1..]), JoinAll(dstDir, names[1..]);
      && Distinct(dsts)
      && (forall p :: p in srcs ==> p !in dsts && p != dst)
      && src != dst && src !in dsts && dst !in dsts
      && (forall i :: 1 <= i < |names| ==> Join(srcDir, names[i]) != dst)
  {
    var src, dst := Join(srcDir, names[0]), Join(dstDir, names[0]);
    var srcs, dsts := JoinAll(srcDir, names[1..]), JoinAll(dstDir, names[1..]);
    assert JoinAll(srcDir, names) == [src] + srcs;
    assert JoinAll(dstDir, names) == [dst] + dsts;
    DistinctSplit([dst], dsts);
    assert src in JoinAll(srcDir, names);
    forall q | q in srcs
      ensures q !in dsts && q != dst
    {
      assert q in [src] + srcs;
      assert q !in [dst] + dsts;
    }
    forall i | 1 <= i < |names|
      ensures Join(srcDir, names[i]) != dst
    {
      JoinAllAt(srcDir, names[1..], i - 1);
      assert names[1..][i - 1] == names[i];
      assert srcs[i - 1] in srcs;
    }
  }

  /** The layout condition holds for the rest of the walk, and splits into
      the first directory's files and the rest. */
  lemma SeparateParts(source: Path, destination: Path, walk: seq<WalkStep>)
    requires walk != [] && Separate(source, destination, walk)
    ensures Separate(source, destination, walk[1..])
    ensures var srcs := JoinAll(Mirror(source, walk[0].rel), walk[0].files);
      var dsts := JoinAll(Mirror(destination, walk[0].rel), walk[0].files);
      && Distinct(dsts)
      && (forall p :: p in srcs ==> p !in dsts && p !in MirroredFiles(destination, walk[1..]))
      && (forall p :: p in dsts ==> p !in MirroredFiles(destination, walk[1..]))
  {
    var dsts, rest := JoinAll(Mirror(destination, walk[0].rel), walk[0].files), MirroredFiles(destination, walk[1..]);
    var srcs, restSrcs := JoinAll(Mirror(source, walk[0].rel), walk[0].files), MirroredFiles(source, walk[1..]);
    assert MirroredFiles(destination, walk) == dsts + rest;
    assert MirroredFiles(source, walk) == srcs + restSrcs;
    DistinctSplit(dsts, rest);
    forall p | p in srcs
      ensures p !in dsts && p !in rest
    {
      assert p in srcs + restSrcs;
    }
    forall p | p in restSrcs
      ensures p !in rest
    {
      assert p in srcs + restSrcs;
    }
  }

  /** After a clean walk, the first walked directory is mirrored and each of
      its files is present at the source and copied. */
  lemma FirstDirCopied(st: PassState, source: Path, destination: Path, walk: seq<WalkStep>, env: Environment)
    requires st.fatal.None? && walk != []
    requires var entered := EnterDir(st, Mirror(destination, walk[0].rel), env);
      && entered.fatal.None?
      && |VisitFiles(entered, Mirror(source, walk[0].rel), Mirror(destination, walk[0].rel), walk[0].files, env.copyFailures).tally.errors|
         == |st.tally.errors|
    requires Separate(source, destination, walk)
    ensures var r := WalkFrom(st, source, destination, walk, env);
      var srcDir, dstDir := Mirror(source, walk[0].rel), Mirror(destination, walk[0].rel);
      && dstDir in r.fs
      && FilesUpToDate(r.fs, srcDir, dstDir, walk[0].files)
      && FilesPresent(r.fs, srcDir, walk[0].files)
  {
    var srcDir, dstDir, files := Mirror(source, walk[0].rel), Mirror(destination, walk[0].rel), walk[0].files;
    var entered := EnterDir(st, dstDir, env);
    var visited := VisitFiles(entered, srcDir, dstDir, files, env.copyFailures);
    var r := WalkFrom(st, source, destination, walk, env);
    assert r == WalkFrom(visited, source, destination, walk[1..], env);
    VisitFilesCounts(entered, srcDir, dstDir, files, env.copyFailures);
    WalkKeepsPaths(visited, source, destination, walk[1..], env);
    SeparateParts(source, destination, walk);
    VisitFilesClean(entered, srcDir, dstDir, files, env.copyFailures);
    forall i | 0 <= i < |files|
      ensures Join(srcDir, files[i]) in r.fs && !Pending(r.fs, Join(srcDir, files[i]), Join(dstDir, files[i]))
    {
      JoinAllAt(srcDir, files, i);
      JoinAllAt(dstDir, files, i);
      WalkPreserves(visited, source, destination, walk[1..], env, Join(srcDir, files[i]));
      WalkPreserves(visited, source, destination, walk[1..], env, Join(dstDir, files[i]));
    }
  }

  /** The up-to-date condition over a walk, from its first step and the rest. */
  lemma UpToDateCons(fs: FileSystem, source: Path, destination: Path, walk: seq<WalkStep>)
    requires walk != []
    requires Mirror(destination, walk[0].rel) in fs
    requires FilesUpToDate(fs, Mirror(source, walk[0].rel), Mirror(destination, walk[0].rel), walk[0].files)
    requires FilesPresent(fs, Mirror(source, walk[0].rel), walk[0].files)
    requires UpToDate(fs, source, destination, walk[1..]) && SourcesPresent(fs, source, walk[1..])
    ensures UpToDate(fs, source, destination, walk) && SourcesPresent(fs, source, walk)
  {
    forall k | 1 <= k < |walk|
      ensures Mirror(destination, walk[k].rel) in fs
      ensures FilesUpToDate(fs, Mirror(source, walk[k].rel), Mirror(destination, walk[k].rel), walk[k].files)
      ensures FilesPresent(fs, Mirror(source, walk[k].rel), walk[k].files)
    {
      assert walk[k] == walk[1..][k - 1];
    }
  }

  /** A walk that ends without a fatal error and adds no error line leaves
      every walked directory mirrored and every listed file copied. */
  lemma {:induction false} WalkLeavesUpToDate(st: PassState, source: Path, destination: Path, walk: seq<WalkStep>, env: Environment)
    requires st.fatal.None?
    requires WalkFrom(st, source, destination, walk, env).fatal.None?
    requires |WalkFrom(st, source, destination, walk, env).tally.errors| == |st.tally.errors|
    requires Separate(source, destination, walk)
    ensures var r := WalkFrom(st, source, destination, walk, env);
      UpToDate(r.fs, source, destination, walk) && SourcesPresent(r.fs, source, walk)
    decreases |walk|
  {
    if walk != [] {
      var srcDir, dstDir, files := Mirror(source, walk[0].rel), Mirror(destination, walk[0].rel), walk[0].files;
      var entered := EnterDir(st, dstDir, env);
      var r := WalkFrom(st, source, destination, walk, env);
      assert entered.fatal.None?;
      var visited := VisitFiles(entered, srcDir, dstDir, files, env.copyFailures);
      assert r == WalkFrom(visited, source, destination, walk[1..], env);
      VisitFilesCounts(entered, srcDir, dstDir, files, env.copyFailures);
      WalkCountsFiles(visited, source, destination, walk[1..], env);
      SeparateParts(source, destination, walk);
      WalkLeavesUpToDate(visited, source, destination, walk[1..], env);
      FirstDirCopied(st, source, destination, walk, env);
      UpToDateCons(r.fs, source, destination, walk);
    }
  }

  /** A run that emits backup_finished with an empty error list leaves the
      destination mirroring the source: get_changes afterwards succeeds and
      reports neither new nor modified entries. */
  lemma CleanRunLeavesNothingToCopy(fs: FileSystem, source: Path, destination: Path, walk: seq<WalkStep>,
                                    env: Environment, date: string)
    requires Separate(source, destination, walk)
    requires Report(Pass(fs, source, destination, walk, env), date, source, destination).Finished?
    requires Report(Pass(fs, source, destination, walk, env), date, source, destination).result.errors == []
    ensures var after := Pass(fs, source, destination, walk, env).fs;
      && UpToDate(after, source, destination, walk)
      && Scan(after, source, destination, walk).Ok?
      && Scan(after, source, destination, walk).value.newEntries == []
      && Scan(after, source, destination, walk).value.modifiedEntries == []
  {
    var after := Pass(fs, source, destination, walk, env).fs;
    WalkLeavesUpToDate(PassState(fs, EmptyTally, None), source, destination, walk, env);
    ScanFailsIff(after, source, destination, walk);
    ScanEmptyIff(after, source, destination, walk);
  }
}
