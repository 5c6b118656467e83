/** The two in-place updates of the task dictionary: the Windows save with
    rename detection, and the deletion of the selected list items, which both
    scripts share. */
module TaskOps {
  import opened Wrappers
  import opened Tasks
  import opened TaskText

  /** The entry the Windows save_task deletes before inserting a new name:
      the first entry equal to the new task, unless its name is falsy. */
  function Replaced(d: TaskDict, name: string, task: Task): (r: Option<string>)
    requires Valid(d)
    ensures r.Some? ==> r.value in d.entries && r.value != name && r.value != "" && d.entries[r.value] == task
    ensures name in d.entries ==> r.None?
    ensures name !in d.entries ==>
      var first := FirstWith(d.order, d.entries, task);
      (r.Some? <==> first.Some? && first.value != "") && (r.Some? ==> r == first)
  {
    if name in d.entries then None
    else
      match FirstWith(d.order, d.entries, task)
      case Some(prior) => if prior != "" then Some(prior) else None
      case None => None
  }

  /** self.tasks after the Windows save_task stores `task` under `name`:
      the name holds the new task, every other surviving entry is untouched,
      an existing name keeps all keys in place, and the count grows by at
      most one. */
  function SaveEntry(d: TaskDict, name: string, task: Task): (r: TaskDict)
    requires Valid(d)
    ensures Valid(r)
    ensures name in r.entries && r.entries[name] == task
    ensures forall n :: n in r.entries && n != name ==> n in d.entries && r.entries[n] == d.entries[n]
    ensures name in d.entries ==> r.entries.Keys == d.entries.Keys && r.order == d.order
    ensures |r.entries| <= |d.entries| + 1
  {
    match Replaced(d, name, task)
    case Some(prior) => Put(Remove(d, prior), name, task)
    case None => Put(d, name, task)
  }

  /** A new name is simply added when no entry with a non-empty name holds
      the same task. */
  lemma SaveEntryAdds(d: TaskDict, name: string, task: Task)
    requires Valid(d) && name !in d.entries
    requires forall n :: n in d.entries && n != "" ==> d.entries[n] != task
    ensures SaveEntry(d, name, task).entries.Keys == d.entries.Keys + {name}
    ensures |SaveEntry(d, name, task).entries| == |d.entries| + 1
  {
    assert Replaced(d, name, task).None?;
  }

  /** A new name replaces the first entry, in dictionary order, whose task
      equals the new one, so the count stays the same. */
  lemma SaveEntryRenames(d: TaskDict, name: string, task: Task)
    requires Valid(d) && name !in d.entries && "" !in d.entries
    requires exists n :: n in d.entries && d.entries[n] == task
    ensures var r, first := SaveEntry(d, name, task), FirstWith(d.order, d.entries, task);
      && first.Some?
      && r.entries.Keys == d.entries.Keys - {first.value} + {name}
      && |r.entries| == |d.entries|
  {
    var f := FirstWith(d.order, d.entries, task);
    var prior := f.value;
    assert Replaced(d, name, task) == Some(prior);
    var e := Remove(d, prior);
    assert SaveEntry(d, name, task) == Put(e, name, task);
    assert name !in e.entries;
  }

  /** The names the selected item texts stand for. */
  function ItemNames(texts: seq<string>): set<string>
  {
    set t | t in texts :: ItemName(t)
  }

  /** self.tasks after delete_task walks the selected item texts, deleting
      each parsed name that is still present. */
  function DeleteItems(d: TaskDict, texts: seq<string>): (r: TaskDict)
    requires Valid(d)
    ensures Valid(r)
    decreases |texts|
  {
    if texts == [] then d
    else
      var p := DeleteItems(d, texts[..|texts| - 1]);
      var name := ItemName(texts[|texts| - 1]);
      if name in p.entries then Remove(p, name) else p
  }

  /** One turn of the delete_task loop. */
  lemma DeleteItemsStep(d: TaskDict, texts: seq<string>, i: nat)
    requires Valid(d) && i < |texts|
    ensures var p, name := DeleteItems(d, texts[..i]), ItemName(texts[i]);
      DeleteItems(d, texts[..i + 1]) == if name in p.entries then Remove(p, name) else p
  {
    assert texts[..i + 1][..i] == texts[..i];
  }

  /** Deleting selected items removes exactly the parsed names and leaves
      every other entry as it was. */
  lemma {:induction false} DeleteItemsRemoves(d: TaskDict, texts: seq<string>)
    requires Valid(d)
    ensures DeleteItems(d, texts).entries.Keys == d.entries.Keys - ItemNames(texts)
    ensures forall n :: n in DeleteItems(d, texts).entries ==> DeleteItems(d, texts).entries[n] == d.entries[n]
    decreases |texts|
  {
    if texts != [] {
      var front := texts[..|texts| - 1];
      DeleteItemsRemoves(d, front);
      assert ItemNames(texts) == ItemNames(front) + {ItemName(texts[|texts| - 1])} by {
        assert forall t :: t in texts <==> t in front || t == texts[|texts| - 1];
      }
    }
  }
}
