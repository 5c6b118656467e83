/** The append rule of record_history, which both scripts share: every
    result goes to the history, and a result with errors also goes to the log. */
module History {
  import opened CopyPass

  /** The results of `rs` that carry at least one error, in order. */
  function ErrorRecords(rs: seq<BackupResult>): (r: seq<BackupResult>)
    ensures |r| <= |rs|
    decreases |rs|
  {
    if rs == [] then []
    else
      var last := rs[|rs| - 1];
      ErrorRecords(rs[..|rs| - 1]) + (if last.errors != [] then [last] else [])
  }

  /** The error records are exactly the results that carry errors. */
  lemma {:induction false} ErrorRecordsMembers(rs: seq<BackupResult>)
    ensures forall x :: x in ErrorRecords(rs) <==> x in rs && x.errors != []
    decreases |rs|
  {
    if rs != [] {
      var front, last := rs[..|rs| - 1], rs[|rs| - 1];
      ErrorRecordsMembers(front);
      assert forall x :: x in rs <==> x in front || x == last;
    }
  }

  /** The error records of two runs of results are those of each, in order. */
  lemma {:induction false} ErrorRecordsConcat(a: seq<BackupResult>, b: seq<BackupResult>)
    ensures ErrorRecords(a + b) == ErrorRecords(a) + ErrorRecords(b)
    decreases |b|
  {
    if b == [] {
      assert a + b == a;
    } else {
      var front := b[..|b| - 1];
      assert (a + b)[..|a + b| - 1] == a + front;
      ErrorRecordsConcat(a, front);
    }
  }

  /** The history and the log of an application. */
  datatype Records = Records(history: seq<BackupResult>, log: seq<BackupResult>)

  /** The records after record_history(result). */
  function Append(rec: Records, result: BackupResult): (r: Records)
    ensures r.history == rec.history + [result]
    ensures r.log == rec.log + ErrorRecords([result])
  {
    assert [result][..0] == [];
    Records(rec.history + [result], if result.errors != [] then rec.log + [result] else rec.log)
  }

  /** The records after record_history on each result of `rs` in turn. */
  function AppendAll(rec: Records, rs: seq<BackupResult>): Records
    decreases |rs|
  {
    if rs == [] then rec else Append(AppendAll(rec, rs[..|rs| - 1]), rs[|rs| - 1])
  }

  /** Over any number of runs, the history grows by every result and the log
      by exactly the results with errors. */
  lemma {:induction false} AppendAllRecords(rec: Records, rs: seq<BackupResult>)
    ensures AppendAll(rec, rs).history == rec.history + rs
    ensures AppendAll(rec, rs).log == rec.log + ErrorRecords(rs)
    decreases |rs|
  {
    if rs != [] {
      var front, last := rs[..|rs| - 1], rs[|rs| - 1];
      AppendAllRecords(rec, front);
      ErrorRecordsConcat(front, [last]);
      assert front + [last] == rs;
    }
  }
}
