/** The task dictionary both scripts keep in self.tasks (and in tasks.json),
    its updates, and the jobs registered with the scheduler. */
module Tasks {
  import opened Wrappers
  import opened FileTree

  datatype Frequency = Once | Daily | Weekly

  /** The "schedule" object of a task: frequency, "HH:mm" time, and the day,
      which save_task sets only for Weekly (None is JSON null). */
  datatype Schedule = Schedule(frequency: Frequency, time: string, day: Option<string>)

  datatype Task = Task(source: Path, destination: Path, schedule: Schedule)

  /** A Python dict from task name to task: its keys in insertion order and
      the mapping itself. */
  datatype TaskDict = TaskDict(order: seq<string>, entries: map<string, Task>)

  const EmptyDict := TaskDict([], map[])

  /** Keys are unique, and the order lists exactly the keys. */
  ghost predicate Valid(d: TaskDict)
  {
    && Distinct(d.order)
    && (forall n :: n in d.entries <==> n in d.order)
  }

  /** What a scheduled job fires on. */
  datatype Trigger = EveryDayAt(time: string) | OnWeekdayAt(day: string, time: string) | EveryWeekAt(time: string)

  /** A job registered with the scheduler: it calls run_scheduled_backup(taskName). */
  datatype Job = Job(taskName: string, trigger: Trigger)

  /** The exceptions registration can raise, by Python class. */
  datatype Raised = KeyError(key: string) | AttributeError(name: string) | ValueError(text: string) | IndexError

  /** The jobs a registration adds: none when it raises. */
  function JobsOf(r: Result<seq<Job>, Raised>): seq<Job>
  {
    if r.Ok? then r.value else []
  }

  /** The exception a registration raises, if any. */
  function RaisedOf(r: Result<seq<Job>, Raised>): Option<Raised>
  {
    if r.Err? then Some(r.error) else None
  }

  /** `d[name] = task`: an existing key keeps its place, a new key goes last. */
  function Put(d: TaskDict, name: string, task: Task): (r: TaskDict)
    requires Valid(d)
    ensures Valid(r)
    ensures r.entries.Keys == d.entries.Keys + {name} && r.entries[name] == task
    ensures forall n :: n in d.entries && n != name ==> r.entries[n] == d.entries[n]
    ensures name in d.entries ==> r.order == d.order
    ensures name !in d.entries ==> r.order == d.order + [name] && |r.entries| == |d.entries| + 1
  {
    if name in d.entries then TaskDict(d.order, d.entries[name := task])
    else TaskDict(d.order + [name], d.entries[name := task])
  }

  /** The order with one key taken out. */
  function Without(order: seq<string>, name: string): (r: seq<string>)
    ensures forall n :: n in r <==> n in order && n != name
    ensures |r| <= |order|
    ensures Distinct(order) ==> Distinct(r)
  {
    if order == [] then []
    else
      assert Distinct(order) ==> Distinct(order[1..]) && order[0] !in order[1..];
      if order[0] == name then Without(order[1..], name)
      else [order[0]] + Without(order[1..], name)
  }

  /** An order without the key is left as it is. */
  lemma {:induction false} WithoutAbsent(order: seq<string>, name: string)
    requires name !in order
    ensures Without(order, name) == order
    decreases |order|
  {
    if order != [] {
      WithoutAbsent(order[1..], name);
    }
  }

  /** In a duplicate-free order, taking the key out removes it from its
      place and keeps every other key in its relative position. */
  lemma {:induction false} WithoutAt(order: seq<string>, name: string, k: nat)
    requires Distinct(order) && k < |order| && order[k] == name
    ensures Without(order, name) == order[..k] + order[k + 1..]
    decreases k
  {
    var tail := order[1..];
    assert Distinct(tail) by {
      forall i, j | 0 <= i < j < |tail| ensures tail[i] != tail[j] {
        assert tail[i] == order[i + 1] && tail[j] == order[j + 1];
      }
    }
    if k == 0 {
      assert name !in tail by {
        forall i | 0 <= i < |tail| ensures tail[i] != name {
          assert tail[i] == order[i + 1];
        }
      }
      WithoutAbsent(tail, name);
    } else {
      assert tail[k - 1] == name;
      WithoutAt(tail, name, k - 1);
      assert order[0] != name;
      assert [order[0]] + tail[..k - 1] == order[..k];
      assert tail[k..] == order[k + 1..];
    }
  }

  /** `del d[name]` for a key that is present: the key leaves its place in
      the iteration order and the other keys keep theirs. */
  function Remove(d: TaskDict, name: string): (r: TaskDict)
    requires Valid(d) && name in d.entries
    ensures Valid(r)
    ensures r.entries.Keys == d.entries.Keys - {name}
    ensures forall n :: n in r.entries ==> r.entries[n] == d.entries[n]
    ensures |r.entries| == |d.entries| - 1
    ensures exists k :: 0 <= k < |d.order| && d.order[k] == name && r.order == d.order[..k] + d.order[k + 1..]
  {
    var k :| 0 <= k < |d.order| && d.order[k] == name;
    WithoutAt(d.order, name, k);
    TaskDict(Without(d.order, name), d.entries - {name})
  }

  /** The first name, in iteration order, whose task equals `task`. */
  function FirstWith(order: seq<string>, entries: map<string, Task>, task: Task): (r: Option<string>)
    requires forall n :: n in order ==> n in entries
    ensures r.Some? ==> r.value in order && entries[r.value] == task
    ensures r.None? <==> forall n :: n in order ==> entries[n] != task
    ensures r.Some? ==> exists k :: 0 <= k < |order| && order[k] == r.value
                                    && forall i :: 0 <= i < k ==> entries[order[i]] != task
  {
    if order == [] then None
    else if entries[order[0]] == task then Some(order[0])
    else
      var r := FirstWith(order[1..], entries, task);
      if r.Some? then
        ghost var k :| 0 <= k < |order[1..]| && order[1..][k] == r.value
                       && forall i :: 0 <= i < k ==> entries[order[1..][i]] != task;
        assert order[k + 1] == r.value;
        r
      else r
  }

  /** The stored names, in order, whose frequency is not Once: the tasks
      load_tasks hands to schedule_task. */
  function Recurring(stored: TaskDict, names: seq<string>): (r: seq<string>)
    requires forall n :: n in names ==> n in stored.entries
    ensures forall n :: n in r <==> n in names && stored.entries[n].schedule.frequency != Once
    decreases |names|
  {
    if names == [] then []
    else
      var front := names[..|names| - 1];
      var last := names[|names| - 1];
      assert forall n :: n in names <==> n in front || n == last;
      Recurring(stored, front) + (if stored.entries[last].schedule.frequency != Once then [last] else [])
  }

  /** The task save_task builds from the pickers and the combo boxes; the
      day is kept only for Weekly. */
  function NewTask(taskSource: Path, taskDestination: Path, frequency: Frequency, time: string, dayText: string): (t: Task)
    ensures t.schedule.day.Some? <==> frequency == Weekly
  {
    Task(taskSource, taskDestination, Schedule(frequency, time, if frequency == Weekly then Some(dayText) else None))
  }
}
