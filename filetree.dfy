/** The file system as the backup engine observes it through os.path.exists,
    os.path.getmtime and os.path.getsize, and the listing os.walk produces. */
module FileTree {
  type Path = string

  /** What the engine can ask about a path: its kind, modification time and size. */
  datatype Entry = Dir(mtime: int, size: nat) | File(mtime: int, size: nat)

  /** A path is present exactly when it is a key. */
  type FileSystem = map<Path, Entry>

  /** One (root, dirs, files) triple of os.walk over the source, reduced to the
      directory's path relative to the walked root ("." for the root itself) and
      the names of the files directly inside it. */
  datatype WalkStep = WalkStep(rel: Path, files: seq<string>)

  /** No element occurs twice. */
  ghost predicate Distinct<T>(xs: seq<T>)
  {
    forall i, j :: 0 <= i < j < |xs| ==> xs[i] != xs[j]
  }

  /** The parts of a sequence without repetitions have none, and share none. */
  lemma DistinctSplit<T>(a: seq<T>, b: seq<T>)
    requires Distinct(a + b)
    ensures Distinct(a) && Distinct(b)
    ensures forall x :: x in a ==> x !in b
  {
    forall x | x in a
      ensures x !in b
    {
      var i :| 0 <= i < |a| && a[i] == x;
      assert (a + b)[i] == x;
      assert forall j :: 0 <= j < |b| ==> b[j] == (a + b)[|a| + j];
    }
    forall i, j | 0 <= i < j < |b|
      ensures b[i] != b[j]
    {
      assert b[i] == (a + b)[|a| + i] && b[j] == (a + b)[|a| + j];
    }
    forall i, j | 0 <= i < j < |a|
      ensures a[i] != a[j]
    {
      assert a[i] == (a + b)[i] && a[j] == (a + b)[j];
    }
  }

  /** os.path.join of a directory and a name. */
  function Join(dir: Path, name: string): Path
  {
    dir + "/" + name
  }

  /** The directory `rel` (relative to a walked root) placed under `root`;
      the relative path "." names `root` itself. */
  function Mirror(root: Path, rel: Path): Path
  {
    if rel == "." then root else Join(root, rel)
  }

  /** total_files: how many files the walk lists, over all its directories. */
  function FileCount(walk: seq<WalkStep>): nat
  {
    if walk == [] then 0 else |walk[0].files| + FileCount(walk[1..])
  }

  /** The text of the exception a stat or copy of a missing path raises. */
  function NotFound(p: Path): string
  {
    NotFoundText + p + "'"
  }

  const NotFoundText := "[Errno 2] No such file or directory: '"

  /** The mirror of every walked directory under `root`, in walk order. */
  function MirroredDirs(root: Path, walk: seq<WalkStep>): (r: seq<Path>)
    ensures |r| == |walk|
  {
    if walk == [] then [] else [Mirror(root, walk[0].rel)] + MirroredDirs(root, walk[1..])
  }

  /** The files of one directory placed under `dir`. */
  function JoinAll(dir: Path, names: seq<string>): (r: seq<Path>)
    ensures |r| == |names|
  {
    if names == [] then [] else [Join(dir, names[0])] + JoinAll(dir, names[1..])
  }

  /** The i-th joined path is the directory joined with the i-th name. */
  lemma {:induction false} JoinAllAt(dir: Path, names: seq<string>, i: nat)
    requires i < |names|
    ensures JoinAll(dir, names)[i] == Join(dir, names[i])
    decreases i
  {
    if i > 0 {
      JoinAllAt(dir, names[1..], i - 1);
    }
  }

  /** The mirror under `root` of every file the walk lists, in walk order. */
  function MirroredFiles(root: Path, walk: seq<WalkStep>): (r: seq<Path>)
    ensures |r| == FileCount(walk)
  {
    if walk == [] then [] else JoinAll(Mirror(root, walk[0].rel), walk[0].files) + MirroredFiles(root, walk[1..])
  }
}
