/**
 * The task plan kept by the console's task manager: a table from integer id to task,
 * stored as a JSON object whose keys are the ids written in decimal.
 */
module TaskManager {
  import opened Wrappers
  import opened Text
  import opened PyDict
  import opened Utils

  /** `TaskStatus`, with its string values. */
  datatype TaskStatus = PENDING | PROGRESS | COMPLETE {
    function Value(): string
    {
      match this
      case PENDING => "pending"
      case PROGRESS => "in progress"
      case COMPLETE => "complete"
    }
  }

  /** `TaskStatus(value)`: the member with that value, if any. */
  function StatusOf(value: string): Option<TaskStatus>
  {
    if value == "pending" then Some(PENDING)
    else if value == "in progress" then Some(PROGRESS)
    else if value == "complete" then Some(COMPLETE)
    else None
  }

  /** Status values and members correspond one to one. */
  lemma StatusRoundTrip(st: TaskStatus, value: string)
    ensures StatusOf(st.Value()) == Some(st)
    ensures StatusOf(value) == Some(st) <==> st.Value() == value
  {
  }

  /** `Task`. Datetimes are seconds; their ISO text in the file is not modelled. */
  datatype Task = Task(id: int, name: string, description: Option<string>,
                       start: Option<DateTime>, end: Option<DateTime>, status: TaskStatus)

  /** The table `read_tasks` returns: int id to task, in file order. */
  type Table = Dict<int, Task>

  /** The JSON object on disk: decimal id text to task. */
  type TaskFile = Dict<string, Task>

  /** `max(tasks.keys(), default=0)`. */
  function MaxId(ids: seq<int>): (m: int)
    ensures |ids| == 0 ==> m == 0
    ensures |ids| > 0 ==> m in ids
    ensures forall k :: 0 <= k < |ids| ==> ids[k] <= m
  {
    if |ids| == 0 then 0
    else if |ids| == 1 then ids[0]
    else
      var rest := MaxId(ids[1..]);
      assert forall k :: 1 <= k < |ids| ==> ids[k] == ids[1..][k - 1];
      if ids[0] >= rest then ids[0] else rest
  }

  /** The id `add_task` gives a new task: one more than the largest, or 1 for an empty table. */
  function NextId(t: Table): (id: int)
    ensures |t| == 0 ==> id == 1
    ensures forall k :: k in Keys(t) ==> k < id
  {
    MaxId(Keys(t)) + 1
  }

  /** The file text of each key is the decimal numeral of exactly one id. */
  predicate Canonical(f: TaskFile)
  {
    UniqueKeys(f) && forall i :: 0 <= i < |f| ==> ParseInt(f[i].0).Some? && IntToString(ParseInt(f[i].0).value) == f[i].0
  }

  /** `_write_tasks`: keys written as `str(id)`. */
  function Encode(t: Table): (f: TaskFile)
    ensures |f| == |t| && forall i :: 0 <= i < |t| ==> f[i] == (IntToString(t[i].0), t[i].1)
  {
    seq(|t|, i requires 0 <= i < |t| => (IntToString(t[i].0), t[i].1))
  }

  /** `read_tasks`: keys read back with `int(k)`. */
  function Decode(f: TaskFile): (t: Table)
    requires Canonical(f)
    ensures |t| == |f| && forall i :: 0 <= i < |f| ==> t[i] == (ParseInt(f[i].0).value, f[i].1)
  {
    seq(|f|, i requires 0 <= i < |f| => (ParseInt(f[i].0).value, f[i].1))
  }

  /** Writing a table and reading it back gives the same table, and the file written is canonical. */
  lemma EncodeDecode(t: Table)
    requires UniqueKeys(t)
    ensures Canonical(Encode(t)) && Decode(Encode(t)) == t
  {
    var f := Encode(t);
    forall i | 0 <= i < |t| ensures ParseInt(f[i].0) == Some(t[i].0) {
      ParseIntToString(t[i].0);
    }
    forall i, j | 0 <= i < j < |t| ensures f[i].0 != f[j].0 {
      IntToStringInjective(t[i].0, t[j].0);
    }
  }

  /** Reading a canonical file gives a table with one entry per id, and writing it gives the file back. */
  lemma DecodeEncode(f: TaskFile)
    requires Canonical(f)
    ensures UniqueKeys(Decode(f)) && Encode(Decode(f)) == f
  {
  }

  /** Reading one more entry of the file appends it under an id not read before. */
  lemma DecodeSnoc(f: TaskFile, i: nat)
    requires Canonical(f) && i < |f|
    ensures Canonical(f[..i]) && Canonical(f[..i + 1])
    ensures ParseInt(f[i].0).value !in Keys(Decode(f[..i]))
    ensures Decode(f[..i + 1]) == Decode(f[..i]) + [(ParseInt(f[i].0).value, f[i].1)]
  {
    CanonicalPrefix(f, i);
    CanonicalPrefix(f, i + 1);
    var id := ParseInt(f[i].0).value;
    var before, after := Decode(f[..i]), Decode(f[..i + 1]);
    forall j | 0 <= j < i ensures Keys(before)[j] != id {
      assert f[..i][j] == f[j];
      assert f[j].0 != f[i].0;
    }
    assert after == before + [(id, f[i].1)] by {
      forall j | 0 <= j < i ensures after[j] == before[j] {
        assert f[..i + 1][j] == f[..i][j];
      }
      assert f[..i + 1][i] == f[i];
    }
  }

  /** A prefix of a canonical file is canonical. */
  lemma CanonicalPrefix(f: TaskFile, n: nat)
    requires Canonical(f) && n <= |f|
    ensures Canonical(f[..n])
  {
    var g := f[..n];
    forall i | 0 <= i < n ensures g[i] == f[i] {
    }
  }

  /** The table after setting one task's status, or None when there is no such task (`KeyError`). */
  function WithStatus(t: Table, id: int, status: TaskStatus): (r: Option<Table>)
    ensures r.None? <==> id !in Keys(t)
  {
    match Get(t, id)
    case None => None
    case Some(task) => Some(Put(t, id, task.(status := status)))
  }

  /** Setting a status changes that task's status and nothing else in the table. */
  lemma WithStatusSpec(t: Table, id: int, status: TaskStatus)
    requires UniqueKeys(t) && id in Keys(t)
    ensures var r := WithStatus(t, id, status).value;
      UniqueKeys(r) && Keys(r) == Keys(t)
      && Get(r, id) == Some(Get(t, id).value.(status := status))
      && forall k :: k != id ==> Get(r, k) == Get(t, k)
  {
    PutSpec(t, id, Get(t, id).value.(status := status));
  }

  /** Adding a task keeps every entry and appends the new one under a fresh id. */
  lemma AddSpec(t: Table, task: Task)
    requires UniqueKeys(t) && task.id == NextId(t)
    ensures var r := Put(t, task.id, task);
      r == t + [(task.id, task)] && UniqueKeys(r)
      && forall k :: k != task.id ==> Get(r, k) == Get(t, k)
  {
    PutSpec(t, task.id, task);
  }

  /** The valid status values as Python prints the list. */
  const StatusChoices: string := "['pending', 'in progress', 'complete']"

  /** `TaskManager`: owns the task file. */
  class TaskManager {
    var file: TaskFile

    predicate Valid()
      reads this
    {
      Canonical(file)
    }

    /** `__init__`: resets the task file. */
    constructor ()
      ensures Valid() && file == []
    {
      file := [];
    }

    /** `_reset_tasks`: the file becomes the empty object. */
    method ResetTasks()
      modifies this
      ensures Valid() && file == []
    {
      file := [];
    }

    /** `read_tasks`: the table with integer keys, in file order. */
    method ReadTasks() returns (t: Table)
      requires Valid()
      ensures t == Decode(file) && UniqueKeys(t)
    {
      t := [];
      var i := 0;
      while i < |file|
        invariant i <= |file| && Canonical(file[..i]) && t == Decode(file[..i])
      {
        var (k, v) := file[i];
        DecodeSnoc(file, i);
        t := Put(t, ParseInt(k).value, v);
        i := i + 1;
      }
      assert file[..i] == file;
      DecodeEncode(file);
    }

    /** `_write_tasks`. */
    method WriteTasks(t: Table)
      requires UniqueKeys(t)
      modifies this
      ensures Valid() && file == Encode(t) && Decode(file) == t
    {
      file := Encode(t);
      EncodeDecode(t);
    }

    /**
     * `add_task`: a PENDING task under the next id is added at the end of the table;
     * every other entry is kept.
     */
    method AddTask(name: string, description: Option<string>, start: Option<DateTime>, end: Option<DateTime>)
      returns (task: Task)
      requires Valid()
      modifies this
      ensures Valid()
      ensures task == Task(NextId(old(Decode(file))), name, description, start, end, PENDING)
      ensures Decode(file) == old(Decode(file)) + [(task.id, task)]
    {
      var tasks := ReadTasks();
      var id := MaxId(Keys(tasks)) + 1;
      task := Task(id, name, description, start, end, PENDING);
      AddSpec(tasks, task);
      tasks := Put(tasks, id, task);
      WriteTasks(tasks);
    }

    /**
     * `set_task_status`: an unknown id fails before anything is written; otherwise only
     * that task's status changes.
     */
    method SetTaskStatus(id: int, status: TaskStatus) returns (r: Result<Task, string>)
      requires Valid()
      modifies this
      ensures Valid()
      ensures id !in Keys(old(Decode(file))) ==> r == Err("KeyError") && file == old(file)
      ensures id in Keys(old(Decode(file))) ==>
        r == Ok(Get(old(Decode(file)), id).value.(status := status))
        && Decode(file) == WithStatus(old(Decode(file)), id, status).value
    {
      var tasks := ReadTasks();
      var found := Get(tasks, id);
      if found.None? {
        return Err("KeyError");
      }
      var updated := found.value.(status := status);
      WithStatusSpec(tasks, id, status);
      tasks := Put(tasks, id, updated);
      WriteTasks(tasks);
      r := Ok(updated);
    }

    /**
     * `do_set_task_status`: a status text that is not a `TaskStatus` value is refused with
     * ValueError and nothing is written; otherwise `set_task_status` decides.
     */
    method DoSetTaskStatus(id: int, statusText: string) returns (r: Result<string, string>)
      requires Valid()
      modifies this
      ensures Valid()
      ensures StatusOf(statusText).None? ==>
        r == Err("'" + statusText + "' is not a valid TaskStatus. Must be one of: " + StatusChoices)
        && file == old(file)
      ensures StatusOf(statusText).Some? && id !in Keys(old(Decode(file))) ==> r.Err? && file == old(file)
      ensures StatusOf(statusText).Some? && id in Keys(old(Decode(file))) ==>
        r == Ok("Set task " + IntToString(Get(old(Decode(file)), id).value.id) + " status to: " + statusText)
        && Decode(file) == WithStatus(old(Decode(file)), id, StatusOf(statusText).value).value
    {
      var status := StatusOf(statusText);
      if status.None? {
        return Err("'" + statusText + "' is not a valid TaskStatus. Must be one of: " + StatusChoices);
      }
      StatusRoundTrip(status.value, statusText);
      var output := SetTaskStatus(id, status.value);
      match output {
        case Err(e) => r := Err(e);
        case Ok(task) => r := Ok("Set task " + IntToString(task.id) + " status to: " + task.status.Value());
      }
    }

    /** `do_add_task`: the dates come from `TaskDates`; a failure there writes nothing. */
    method DoAddTask(name: string, desc: Option<string>, startText: Option<string>, endText: Option<string>,
                     parse: string -> Option<DateTime>)
      returns (r: Result<string, string>)
      requires Valid()
      modifies this
      ensures Valid()
      ensures TaskDates(startText, endText, parse).Err? ==>
        r == Err(TaskDates(startText, endText, parse).error) && file == old(file)
      ensures TaskDates(startText, endText, parse).Ok? ==>
        var (start, end) := TaskDates(startText, endText, parse).value;
        var task := Task(NextId(old(Decode(file))), name, desc, start, end, PENDING);
        Decode(file) == old(Decode(file)) + [(task.id, task)]
        && r == Ok("Task " + IntToString(task.id) + ":'" + name + "' created")
    {
      var dates := TaskDates(startText, endText, parse);
      if dates.Err? {
        return Err(dates.error);
      }
      var task := AddTask(name, desc, dates.value.0, dates.value.1);
      r := Ok("Task " + IntToString(task.id) + ":'" + name + "' created");
    }
  }

  /**
   * The start and end `do_add_task` passes on. Both are parsed only when `-end` is given
   * (non-empty), the start first: a missing start text then raises TypeError inside
   * `strptime`, and a text `parse` rejects raises ValueError. `parse` stands for
   * `strptime` with the format YYYY-MM-DDTHH:MM:SS.
   */
  function TaskDates(startText: Option<string>, endText: Option<string>, parse: string -> Option<DateTime>)
    : (r: Result<(Option<DateTime>, Option<DateTime>), string>)
    ensures !Truthy(endText) ==> r == Ok((None, None))
    ensures Truthy(endText) && r.Ok? ==>
      startText.Some? && r.value.0 == parse(startText.value) && r.value.0.Some?
      && r.value.1 == parse(endText.value) && r.value.1.Some?
    ensures r.Err? <==>
      Truthy(endText) && (startText.None? || parse(startText.value).None? || parse(endText.value).None?)
  {
    if !Truthy(endText) then Ok((None, None))
    else if startText.None? then Err("TypeError")
    else
      match (parse(startText.value), parse(endText.value))
      case (None, _) => Err("ValueError")
      case (_, None) => Err("ValueError")
      case (Some(start), Some(end)) => Ok((Some(start), Some(end)))
  }
}
