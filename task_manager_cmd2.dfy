/**
 * The second, name-keyed task manager: a JSON list of task records kept in a file.
 * Tasks are found by name; completing and editing touch the first match only,
 * deleting removes every match. Each `print` is one line appended to `printed`.
 */
module TaskListManager {
  import opened Wrappers
  import opened Text

  /** One record of the list: `{"name", "description", "due_date", "completed"}`. */
  datatype TaskEntry = TaskEntry(name: string, description: string, dueDate: string, completed: bool)

  const InvalidDate: string := "Invalid date format. Please use 'YYYY-MM-DD'."
  const NoCurrentName: string := "Please provide the current name of the task."
  const NoTasks: string := "No tasks found."
  const Rule: string := "--------------------"

  /** The list stored in the file; a file that does not exist reads as the empty list. */
  function Stored(file: Option<seq<TaskEntry>>): (tasks: seq<TaskEntry>)
    ensures file.None? ==> tasks == []
    ensures file.Some? ==> tasks == file.value
  {
    file.GetOr([])
  }

  /** The position of the first task with that name, if there is one. */
  function FirstNamed(tasks: seq<TaskEntry>, name: string): (r: Option<nat>)
    ensures r.None? <==> forall j :: 0 <= j < |tasks| ==> tasks[j].name != name
    ensures r.Some? ==> r.value < |tasks| && tasks[r.value].name == name
    ensures r.Some? ==> forall j :: 0 <= j < r.value ==> tasks[j].name != name
  {
    if |tasks| == 0 then None
    else if tasks[0].name == name then Some(0)
    else
      match FirstNamed(tasks[1..], name)
      case None => None
      case Some(i) => Some(i + 1)
  }

  /** The list comprehension of `do_delete_task`: the tasks not bearing that name, in order. */
  function WithoutNamed(tasks: seq<TaskEntry>, name: string): (r: seq<TaskEntry>)
    ensures |r| <= |tasks|
    ensures forall j :: 0 <= j < |r| ==> r[j].name != name
  {
    if |tasks| == 0 then []
    else if tasks[0].name == name then WithoutNamed(tasks[1..], name)
    else [tasks[0]] + WithoutNamed(tasks[1..], name)
  }

  /**
   * Deleting by name keeps every other task, in order and with its multiplicity, and
   * shortens the list exactly when some task bears the name.
   */
  lemma WithoutNamedSpec(tasks: seq<TaskEntry>, name: string)
    ensures forall t: TaskEntry :: t.name != name ==> multiset(WithoutNamed(tasks, name))[t] == multiset(tasks)[t]
    ensures forall t: TaskEntry :: t.name == name ==> multiset(WithoutNamed(tasks, name))[t] == 0
    ensures |WithoutNamed(tasks, name)| == |tasks| <==> FirstNamed(tasks, name).None?
  {
    forall t: TaskEntry
      ensures multiset(WithoutNamed(tasks, name))[t] == if t.name == name then 0 else multiset(tasks)[t]
    {
      WithoutNamedCount(tasks, name, t);
    }
    WithoutNamedLength(tasks, name);
  }

  lemma {:induction false} WithoutNamedCount(tasks: seq<TaskEntry>, name: string, t: TaskEntry)
    ensures multiset(WithoutNamed(tasks, name))[t] == if t.name == name then 0 else multiset(tasks)[t]
  {
    if |tasks| > 0 {
      var head, tail := tasks[0], tasks[1..];
      WithoutNamedCount(tail, name, t);
      assert tasks == [head] + tail;
      if head.name != name {
        assert WithoutNamed(tasks, name) == [head] + WithoutNamed(tail, name);
      }
    }
  }

  lemma {:induction false} WithoutNamedLength(tasks: seq<TaskEntry>, name: string)
    ensures |WithoutNamed(tasks, name)| == |tasks| <==> FirstNamed(tasks, name).None?
  {
    if |tasks| > 0 {
      WithoutNamedLength(tasks[1..], name);
    }
  }

  /** `a` is `b` with some elements left out, the rest in their order. */
  predicate Subsequence(a: seq<TaskEntry>, b: seq<TaskEntry>)
    decreases |b|
  {
    |a| == 0 || (|b| > 0 && ((a[0] == b[0] && Subsequence(a[1..], b[1..])) || Subsequence(a, b[1..])))
  }

  /** Deleting keeps the relative order of the tasks that remain. */
  lemma {:induction false} WithoutNamedOrder(tasks: seq<TaskEntry>, name: string)
    ensures Subsequence(WithoutNamed(tasks, name), tasks)
  {
    if |tasks| > 0 {
      WithoutNamedOrder(tasks[1..], name);
      if tasks[0].name != name {
        assert WithoutNamed(tasks, name)[1..] == WithoutNamed(tasks[1..], name);
      }
    }
  }

  /**
   * One task after `do_edit_task`'s three optional fields are applied: a field changes
   * only when its token is given and non-empty. The due date goes through `normalize`
   * (`strptime` then `strftime` with YYYY-MM-DD); None means the date is refused.
   */
  function Edited(task: TaskEntry, newName: Option<string>, newDescription: Option<string>,
                  newDueDate: Option<string>, normalize: string -> Option<string>): (r: Option<TaskEntry>)
    ensures r.None? <==> Truthy(newDueDate) && normalize(newDueDate.value).None?
    ensures r.Some? ==> r.value.completed == task.completed
    ensures r.Some? ==> r.value.name == (if Truthy(newName) then newName.value else task.name)
    ensures r.Some? ==> r.value.description == (if Truthy(newDescription) then newDescription.value else task.description)
    ensures r.Some? ==> r.value.dueDate == (if Truthy(newDueDate) then normalize(newDueDate.value).value else task.dueDate)
  {
    var t1 := if Truthy(newName) then task.(name := newName.value) else task;
    var t2 := if Truthy(newDescription) then t1.(description := newDescription.value) else t1;
    if !Truthy(newDueDate) then Some(t2)
    else
      match normalize(newDueDate.value)
      case None => None
      case Some(d) => Some(t2.(dueDate := d))
  }

  /** The `k`-th argument of `do_edit_task`, when there are that many. */
  function Arg(tokens: seq<string>, k: nat): (r: Option<string>)
    ensures r.Some? <==> k < |tokens|
    ensures r.Some? ==> r.value == tokens[k]
  {
    if k < |tokens| then Some(tokens[k]) else None
  }

  /** The six lines `do_read_tasks` prints for the task numbered `number`. */
  function Block(number: nat, task: TaskEntry): (lines: seq<string>)
    ensures |lines| == 6
  {
    ["Task " + IntToString(number) + ":",
     "  Name: " + task.name,
     "  Description: " + task.description,
     "  Due Date: " + task.dueDate,
     "  Completed: " + (if task.completed then "Yes" else "No"),
     Rule]
  }

  /** The blocks of a list, numbered from 1 in list order. */
  function Listing(tasks: seq<TaskEntry>): seq<string>
  {
    if |tasks| == 0 then [] else Listing(tasks[..|tasks| - 1]) + Block(|tasks|, tasks[|tasks| - 1])
  }

  /** The listing has six lines per task, and the block at position k carries number k + 1 and the k-th task. */
  lemma ListingNumbered(tasks: seq<TaskEntry>)
    ensures |Listing(tasks)| == 6 * |tasks|
    ensures forall k :: 0 <= k < |tasks| ==> Listing(tasks)[6 * k .. 6 * k + 6] == Block(k + 1, tasks[k])
  {
    ListingLength(tasks);
    forall k | 0 <= k < |tasks| ensures Listing(tasks)[6 * k .. 6 * k + 6] == Block(k + 1, tasks[k]) {
      ListingBlock(tasks, k);
    }
  }

  lemma {:induction false} ListingLength(tasks: seq<TaskEntry>)
    ensures |Listing(tasks)| == 6 * |tasks|
  {
    if |tasks| > 0 {
      ListingLength(tasks[..|tasks| - 1]);
    }
  }

  lemma {:induction false} ListingBlock(tasks: seq<TaskEntry>, k: nat)
    requires k < |tasks|
    ensures |Listing(tasks)| == 6 * |tasks|
    ensures Listing(tasks)[6 * k .. 6 * k + 6] == Block(k + 1, tasks[k])
  {
    ListingLength(tasks);
    var n := |tasks| - 1;
    var init := tasks[..n];
    ListingLength(init);
    var front, last := Listing(init), Block(n + 1, tasks[n]);
    assert Listing(tasks) == front + last;
    var lo := 6 * k;
    if k < n {
      ListingBlock(init, k);
      assert lo + 6 <= 6 * n by { MulMonotone(k + 1, n); }
      SliceOfFront(front, last, lo, lo + 6);
      assert init[k] == tasks[k];
      assert Listing(tasks)[lo .. lo + 6] == front[lo .. lo + 6];
    } else {
      SliceOfBack(front, last, lo);
      assert Listing(tasks)[lo .. lo + 6] == last;
    }
  }

  lemma MulMonotone(a: nat, b: nat)
    requires a <= b
    ensures 6 * a <= 6 * b
  {
  }

  lemma SliceOfFront(front: seq<string>, back: seq<string>, lo: nat, hi: nat)
    requires lo <= hi <= |front|
    ensures (front + back)[lo..hi] == front[lo..hi]
  {
  }

  lemma SliceOfBack(front: seq<string>, back: seq<string>, lo: nat)
    requires lo == |front|
    ensures (front + back)[lo .. lo + |back|] == back
  {
  }

  /** `TaskManager` of the cmd2 command set: the task file and the printed lines. */
  class TaskManager {
    /** The file's content; None while the file does not exist. */
    var file: Option<seq<TaskEntry>>
    var printed: seq<string>

    /** `__init__`: no file has been written yet. */
    constructor ()
      ensures file.None? && printed == []
    {
      file := None;
      printed := [];
    }

    /** `read_tasks_file`. */
    method ReadTasksFile() returns (tasks: seq<TaskEntry>)
      ensures tasks == Stored(file)
    {
      tasks := if file.Some? then file.value else [];
    }

    /** `write_tasks_file`. */
    method WriteTasksFile(tasks: seq<TaskEntry>)
      modifies this
      ensures file == Some(tasks) && printed == old(printed)
    {
      file := Some(tasks);
    }

    method Print(line: string)
      modifies this
      ensures file == old(file) && printed == old(printed) + [line]
    {
      printed := printed + [line];
    }

    /**
     * `do_add_task`: a refused date prints the format hint and writes nothing; otherwise
     * one task, not completed, is appended at the end.
     */
    method DoAddTask(taskName: string, description: string, dateText: string, normalize: string -> Option<string>)
      modifies this
      ensures normalize(dateText).None? ==> file == old(file) && printed == old(printed) + [InvalidDate]
      ensures normalize(dateText).Some? ==>
        file == Some(old(Stored(file)) + [TaskEntry(taskName, description, normalize(dateText).value, false)])
        && printed == old(printed) + ["Task '" + taskName + "' added successfully."]
    {
      var dueDate := normalize(dateText);
      if dueDate.None? {
        Print(InvalidDate);
        return;
      }
      var task := TaskEntry(taskName, description, dueDate.value, false);
      var tasks := ReadTasksFile();
      tasks := tasks + [task];
      WriteTasksFile(tasks);
      Print("Task '" + taskName + "' added successfully.");
    }

    /** The six lines `do_read_tasks` prints for one task. */
    method PrintBlock(number: nat, task: TaskEntry)
      modifies this
      ensures file == old(file) && printed == old(printed) + Block(number, task)
    {
      Print("Task " + IntToString(number) + ":");
      Print("  Name: " + task.name);
      Print("  Description: " + task.description);
      Print("  Due Date: " + task.dueDate);
      Print("  Completed: " + (if task.completed then "Yes" else "No"));
      Print(Rule);
    }

    /** `do_read_tasks`: the numbered listing, or a notice when the list is empty. */
    method DoReadTasks()
      modifies this
      ensures file == old(file)
      ensures Stored(file) == [] ==> printed == old(printed) + [NoTasks]
      ensures Stored(file) != [] ==> printed == old(printed) + Listing(Stored(file))
    {
      var tasks := ReadTasksFile();
      if |tasks| == 0 {
        Print(NoTasks);
        return;
      }
      var i := 0;
      while i < |tasks|
        invariant 0 <= i <= |tasks| && file == old(file)
        invariant printed == old(printed) + Listing(tasks[..i])
      {
        PrintBlock(i + 1, tasks[i]);
        assert tasks[..i + 1][..i] == tasks[..i];
        assert Listing(tasks[..i + 1]) == Listing(tasks[..i]) + Block(i + 1, tasks[i]);
        i := i + 1;
      }
      assert tasks[..i] == tasks;
    }

    /**
     * `do_complete_task`: the first task with that name is marked completed and the list
     * written back; with no such task nothing is written.
     */
    method DoCompleteTask(taskName: string)
      modifies this
      ensures FirstNamed(old(Stored(file)), taskName).None? ==>
        file == old(file) && printed == old(printed) + ["Task '" + taskName + "' not found."]
      ensures FirstNamed(old(Stored(file)), taskName).Some? ==>
        var i := FirstNamed(old(Stored(file)), taskName).value;
        file == Some(old(Stored(file))[i := old(Stored(file))[i].(completed := true)])
        && printed == old(printed) + ["Task '" + taskName + "' marked as completed."]
    {
      var tasks := ReadTasksFile();
      var found := false;
      var i := 0;
      while i < |tasks|
        invariant 0 <= i <= |tasks| && tasks == Stored(file)
        invariant forall j :: 0 <= j < i ==> tasks[j].name != taskName
      {
        if tasks[i].name == taskName {
          tasks := tasks[i := tasks[i].(completed := true)];
          found := true;
          break;
        }
        i := i + 1;
      }
      if found {
        WriteTasksFile(tasks);
        Print("Task '" + taskName + "' marked as completed.");
      } else {
        Print("Task '" + taskName + "' not found.");
      }
    }

    /** `do_delete_task`: every task with that name goes; with none, nothing is written. */
    method DoDeleteTask(taskName: string)
      modifies this
      ensures FirstNamed(old(Stored(file)), taskName).None? ==>
        file == old(file) && printed == old(printed) + ["Task '" + taskName + "' not found."]
      ensures FirstNamed(old(Stored(file)), taskName).Some? ==>
        file == Some(WithoutNamed(old(Stored(file)), taskName))
        && printed == old(printed) + ["Task '" + taskName + "' has been deleted."]
    {
      var tasks := ReadTasksFile();
      var newTasks := WithoutNamed(tasks, taskName);
      WithoutNamedSpec(tasks, taskName);
      if |newTasks| == |tasks| {
        Print("Task '" + taskName + "' not found.");
        return;
      }
      WriteTasksFile(newTasks);
      Print("Task '" + taskName + "' has been deleted.");
    }

    /**
     * `do_edit_task`: the arguments are whitespace-separated tokens: current name, then
     * optional new name, description and due date. Only the first task with the current
     * name is edited; a refused due date prints the format hint and writes nothing.
     */
    method DoEditTask(args: string, normalize: string -> Option<string>)
      modifies this
      ensures |SplitWhitespace(args)| == 0 ==> file == old(file) && printed == old(printed) + [NoCurrentName]
      ensures |SplitWhitespace(args)| > 0 ==>
        var tokens := SplitWhitespace(args);
        var current := tokens[0];
        match FirstNamed(old(Stored(file)), current)
        case None =>
          file == old(file) && printed == old(printed) + ["Task '" + current + "' not found."]
        case Some(i) =>
          match Edited(old(Stored(file))[i], Arg(tokens, 1), Arg(tokens, 2), Arg(tokens, 3), normalize)
          case None => file == old(file) && printed == old(printed) + [InvalidDate]
          case Some(task) =>
            file == Some(old(Stored(file))[i := task])
            && printed == old(printed) + ["Task '" + current + "' has been updated."]
    {
      var tokens := SplitWhitespace(args);
      if |tokens| < 1 {
        Print(NoCurrentName);
        return;
      }
      var currentName := tokens[0];
      var newName := Arg(tokens, 1);
      var newDescription := Arg(tokens, 2);
      var newDueDate := Arg(tokens, 3);
      var tasks := ReadTasksFile();
      var found := false;
      var i := 0;
      while i < |tasks|
        invariant 0 <= i <= |tasks| && tasks == Stored(file)
        invariant forall j :: 0 <= j < i ==> tasks[j].name != currentName
      {
        if tasks[i].name == currentName {
          assert FirstNamed(tasks, currentName) == Some(i);
          var edited := Edited(tasks[i], newName, newDescription, newDueDate, normalize);
          if edited.None? {
            Print(InvalidDate);
            return;
          }
          tasks := tasks[i := edited.value];
          found := true;
          break;
        }
        i := i + 1;
      }
      if found {
        WriteTasksFile(tasks);
        Print("Task '" + currentName + "' has been updated.");
      } else {
        assert FirstNamed(tasks, currentName).None?;
        Print("Task '" + currentName + "' not found.");
      }
    }
  }

  /** Completing touches one task: the first with the name, which becomes completed; the rest are unchanged. */
  lemma CompleteFirstOnly(tasks: seq<TaskEntry>, name: string)
    requires FirstNamed(tasks, name).Some?
    ensures var i := FirstNamed(tasks, name).value;
      var r := tasks[i := tasks[i].(completed := true)];
      |r| == |tasks| && r[i].completed && r[i].name == name
      && (forall j :: 0 <= j < |tasks| && j != i ==> r[j] == tasks[j])
      && (forall j :: 0 <= j < i ==> tasks[j].name != name)
  {
  }
}
