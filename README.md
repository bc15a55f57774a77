# LLMSat core, modelled in Dafny

LLMSat is an LLM-driven spacecraft operating system. A language-model agent pilots a
Kerbal Space Program vessel through a command console. The console is a cmd2 shell whose
output is buffered and sent to a remote controller. Command sets manage alarms, tasks,
the part tree, the autopilot and communications. This project models that core's
state and decision logic and proves properties of it:

- **Alarms** (`alarm_manager.dfy`): the Kerbal Alarm Clock store and the alarm monitor.
  One poll is one step. An alarm fires at most once, whatever the clock does between polls.
- **ConsoleApp** (`console.dfy`): the console's output buffer, the controller
  connection flag and message dispatch. While every buffered entry is a string, every
  COMMAND and every CONNECT gets exactly one reply, the whole drained buffer. A
  non-string entry makes the join in `get_output` raise: that message gets no reply and
  the receive thread ends.
- **Utils** (`utils.dfy`): the KSP epoch, `get_ut`, and the mission-elapsed-time (MET) display.
  A round-trip lemma reads the display back to the seconds it shows.
- **TaskManager** (`task_manager.dfy`): the id-keyed task table and its JSON file round trip.
- **TaskListManager** (`task_manager_cmd2.dfy`): the name-keyed task list of the cmd2 command set.
- **SpacecraftManager** (`spacecraft_manager.dfy`): pre-order tagging of the part tree
  in place, the mirrored `Part` tree, part-type classification, and the resource table.
- **Autopilot** (`autopilot.dfy`): the status decision, the node safety check, the
  order of execution and the console writes of its commands.
- **OrbitPropagator** (`orbit_propagator.dfy`): radius sampling and the orbit safety check.
- **Eps** (`eps.dfy`): the clamped battery.
- **CommsService** (`comms_service.dfy`): the append-only message log.
- **SimService** (`sim_service.dfy`): the simulator's configuration loaders.
- **ConvoToLatex** (`convo_to_latex.dfy`): escape-sequence stripping and LaTeX wrapping of a conversation log.
- **Text**, **PyDict**, **Wrappers**: Python strings, insertion-ordered dicts and
  Option/Result, shared by the modules above.

Objects whose fields the source updates become classes with those fields. Examples are
the alarm manager, the console, both task managers, the spacecraft manager with its tag
array, the autopilot service, the battery and the communication service. Pure
computations become functions with lemmas.

Some behaviour lives outside the files modelled, such as kRPC, strptime, pandas, file
contents and the clock. It enters as parameters (`parse`, `normalize`, `radiusAt`,
`render`, `run`, `amount`/`max`) or as fields that hold what those objects report.

Where the code and its documentation disagree, the model follows the code:

- `add_alarm` checks the new *name* against the alarm *ids* (the keys of `get_alarms`),
  not against the names.
- A console COMMAND reply is the whole drained buffer, leftovers of earlier output
  included. The console never checks whether a controller is connected.
- `do_add_alarm` passes the ValueError object itself, not its text, to `perror`
  (alarm_manager.py:182), and `perror` buffers whatever it is given. The next
  `get_output` then raises TypeError inside the receive thread. So an `add_alarm` from the
  controller that repeats a name in use gets no reply, and the console stops reading
  messages. The model keeps this behaviour (`Alarms.DuplicateNameEndsReceiving`).
- `do_add_task` of the id-keyed task manager parses `-start` only when `-end` is given.
- The markers `convo_to_latex.py` removes are the ESC-prefixed terminal colour
  sequences (`ESC[91m`, `ESC[39m`), as the file's bytes have them.

## Model

| member | source | states |
|---|---|---|
| Alarms.RemainingTime | llmsat/components/alarm_manager.py:40-44 | the remaining time is trigger time minus now; it is non-positive exactly when the trigger time has been reached |
| Alarms.UpdateName | llmsat/components/alarm_manager.py:50-52 | renaming changes the name only; id, notes and time are kept |
| Alarms.AsDict | llmsat/components/alarm_manager.py:125-134 | `get_alarms` keys every alarm by its id, in store order; its keys are exactly the alarm ids |
| Alarms.Step | llmsat/components/alarm_manager.py:226-234 | a firing alarm gets " (TRIGGERED)" appended so its name now contains the mark; a non-firing alarm is unchanged; id, time and notes never change |
| Alarms.Fires | llmsat/components/alarm_manager.py:228-231 | the monitor's condition, remaining time non-positive and no "(TRIGGERED)" in the name; specified over runs by FiresAtIff |
| Alarms.Poll | llmsat/components/alarm_manager.py:223-234 | one pass keeps the store's size and order and applies the per-alarm step to each alarm |
| Alarms.AlertsSpec | llmsat/components/alarm_manager.py:223-232 | a pass notifies exactly the alarms that fire, each at the poll's time, and no more notifications than there are alarms |
| Alarms.Alerts | llmsat/components/alarm_manager.py:226-233 | the notifications of one pass in store order; specified by AlertsSpec and AlertsDistinct |
| Alarms.RunPolls | llmsat/components/alarm_manager.py:223-234 | the store after successive passes; specified by RunPollsPointwise and RunPollsKeeps |
| Alarms.RunAlerts | llmsat/components/alarm_manager.py:223-234 | the notifications of successive passes, pass by pass; specified by RunAlertsPerAlarm, RunAlertsFrom and RunAlertsDistinct |
| Alarms.AlertsDistinct | llmsat/components/alarm_manager.py:226-233 | with unique ids in the store, no two notifications of one pass carry the same alarm id: at most one notification per alarm per pass |
| Alarms.Untouched | llmsat/components/alarm_manager.py:229-231 | an unmarked alarm that no reading has reached is left as it was |
| Alarms.TriggeredStays | llmsat/components/alarm_manager.py:229-230 | an alarm already marked "(TRIGGERED)" is never changed by any run of polls |
| Alarms.NotYetMarked | llmsat/components/alarm_manager.py:229-234 | an alarm still unmarked after a run was never reached by any reading and is unchanged |
| Alarms.FiresAtIff | llmsat/components/alarm_manager.py:223-234 | an alarm fires in pass k iff it started unmarked, reading k reached its time, and no earlier reading did; the readings need not increase |
| Alarms.OneShot | llmsat/components/alarm_manager.py:223-234 | an alarm fires in at most one pass of any run, whatever the clock does |
| Alarms.NeverFiresIfMarked | llmsat/components/alarm_manager.py:229-230 | an alarm created with "(TRIGGERED)" in its name never fires |
| Alarms.RunPollsPointwise | llmsat/components/alarm_manager.py:223-234 | over a run of passes each alarm evolves on its own; the store keeps its size |
| Alarms.RunPollsKeeps | llmsat/components/alarm_manager.py:226-234 | polling never removes an alarm and never changes its id, time or notes; ids stay unique |
| Alarms.RunAlertsPerAlarm | llmsat/components/alarm_manager.py:223-234 | the pass at reading k reports the i-th alarm of the store exactly when that alarm fires at k |
| Alarms.RunAlertsFrom | llmsat/components/alarm_manager.py:223-234 | every notification of a run names an alarm of the store, in a pass where that alarm fires, stamped with that pass's reading |
| Alarms.LaterPassDistinct | llmsat/components/alarm_manager.py:223-234 | a notification of an earlier pass and one of the latest pass carry different alarm ids |
| Alarms.RunAlertsDistinct | llmsat/components/alarm_manager.py:218-234 | over a whole monitor run no two notifications carry the same alarm id: one notification per alarm at most |
| Alarms.AfterPollsKeeps | llmsat/components/alarm_manager.py:50-52 | only the name of an alarm can change under polling |
| Alarms.RowsOf | llmsat/components/alarm_manager.py:103-111 | one row per alarm, in store order, carrying that alarm's remaining time |
| Alarms.Insert | llmsat/components/alarm_manager.py:114 | inserting a row adds exactly that row to the rows |
| Alarms.SortRows | llmsat/components/alarm_manager.py:114 | sorting by remaining time is a permutation of the rows |
| Alarms.InsertSorted | llmsat/components/alarm_manager.py:114 | inserting a row that came earlier in the store into a stably sorted list keeps it stably sorted |
| Alarms.SortRowsSorted | llmsat/components/alarm_manager.py:114 | the sort orders rows by remaining time, ties in store order (Python's stable `sorted`) |
| Alarms.ListAlarmsSpec | llmsat/components/alarm_manager.py:94-123 | "No alarms set" exactly for an empty store; otherwise every alarm listed once, ascending by remaining time, ties in store order |
| Alarms.ListAlarms | llmsat/components/alarm_manager.py:94-123 | the listing `do_get_alarms` prints; specified by ListAlarmsSpec |
| Alarms.OnAlarmTrigger | llmsat/components/alarm_manager.py:211-216 | the notification carries the alarm as it stands and the time of the poll |
| Alarms.RemoveId | llmsat/components/alarm_manager.py:140-142 | removing an id that is absent changes nothing; removing the head's unique id leaves the rest |
| Alarms.AlarmManager.constructor | llmsat/components/alarm_manager.py:69-87 | the store is cleared exactly when `remove_alarms_on_init` is set, otherwise kept |
| Alarms.AlarmManager.RemoveAllAlarms | llmsat/components/alarm_manager.py:136-142 | after removing every alarm of the snapshot the store is empty |
| Alarms.AlarmManager.GetAlarms | llmsat/components/alarm_manager.py:125-134 | the dictionary of the store keyed by id, with unique keys |
| Alarms.AlarmManager.DoGetAlarms | llmsat/components/alarm_manager.py:94-123 | the listing is the sorted listing of the current store at the current reading |
| Alarms.DuplicateNameEndsReceiving | llmsat/components/alarm_manager.py:179-183 | a controller COMMAND whose run hands `perror` the duplicate-name ValueError gets no reply; the error stays buffered, the receive thread ends and no later message is read |
| Alarms.DuplicateMessage | llmsat/components/alarm_manager.py:194 | the ValueError text for a name in use; its use is stated by AddAlarm and DoAddAlarm |
| Alarms.TimeFormatMessage | llmsat/components/alarm_manager.py:174-176 | the error text for an unparseable time; its use is stated by DoAddAlarm |
| Alarms.AlarmManager.AddAlarm | llmsat/components/alarm_manager.py:189-209 | a name equal to an existing id is refused and nothing changes; otherwise exactly one alarm is appended, at UT time minus the epoch, notes "" without description |
| Alarms.AlarmManager.DoAddAlarm | llmsat/components/alarm_manager.py:167-187 | an unparseable time is refused, the format message goes to `perror` and nothing is created; a name in use is refused, the ValueError object itself goes to `perror` and nothing is created; otherwise one alarm is appended and reported by `poutput` as "New alarm created:" and its JSON |
| Alarms.AlarmManager.MonitorPoll | llmsat/components/alarm_manager.py:223-234 | one monitor iteration: notifications of the firing alarms in store order, each sent before its rename, and the store after the pass |
| Alarms.AlarmManager.MonitorAlarms | llmsat/components/alarm_manager.py:218-234 | a finite run of iterations yields the store and notifications of the successive passes |
| ConsoleApp.Stamp | llmsat/console.py:110-117 | with `timestamp` the entry is the UT text, a vertical-bar separator, then the message; otherwise the message itself |
| ConsoleApp.PerformAllSpec | llmsat/console.py:110-128 | a run of writes appends one buffer entry per `poutput`/`perror`, sends every alert in order, and leaves the connection flag and the receive thread alone |
| ConsoleApp.Perform | llmsat/console.py:110-128 | one `poutput`, `perror` or `async_alert`; specified by PerformSpec |
| ConsoleApp.PerformAll | llmsat/console.py:110-128 | a run of writes in order; specified by PerformAllSpec |
| ConsoleApp.DashboardWrites | llmsat/console.py:134-159 | the writes of `display_dashboard` in order; specified by DashboardHeader and ConnectReplyHeader |
| ConsoleApp.Flush | llmsat/console.py:91-93 | `get_output` then `send_message`, or the receive thread ending when the join raises; specified by CommandReply and ConnectReply |
| ConsoleApp.Receive | llmsat/console.py:78-104 | dispatch of one message to its handler; specified by CommandReply, ConnectReply, DisconnectSilent, IgnoresConnection and ReplyStep |
| ConsoleApp.ReceiveAll | llmsat/console.py:78-87 | messages read in order until the receive thread ends; specified by OneReplyPerRequest, LastMessageRead and TextOnlyAnswersAll |
| ConsoleApp.CommandReply | llmsat/console.py:89-93 | with only strings buffered, a COMMAND sends its alerts and then exactly one reply, the earlier buffer plus the command's own entries joined, and empties the buffer; with a non-string entry it sends only its alerts, keeps the entries and ends the receive thread |
| ConsoleApp.ConnectReply | llmsat/console.py:95-100 | a CONNECT marks the controller connected; a non-string entry in the earlier buffer ends the receive thread with nothing sent; otherwise earlier output is discarded and the dashboard's entries are the reply, or, if one of them is no string, only its alerts go out and the thread ends |
| ConsoleApp.DashboardHeader | llmsat/console.py:140-142 | the dashboard buffers "SatelliteOS", the UT and MET line, and "" first, then more lines |
| ConsoleApp.ConnectReplyHeader | llmsat/console.py:95-100 | when the CONNECT reply is sent, its text begins with the three dashboard header lines |
| ConsoleApp.DisconnectSilent | llmsat/console.py:102-104 | a DISCONNECT marks the controller disconnected, sends nothing, buffers nothing and leaves the receive thread running |
| ConsoleApp.IgnoresConnection | llmsat/console.py:78-87 | dispatch gives the same buffer, replies, terminal and receive thread whether or not a controller is connected |
| ConsoleApp.ReplyStep | llmsat/console.py:78-93 | one message keeps everything sent before; it adds one reply for a COMMAND or CONNECT whose `get_output` succeeds and none otherwise, and the receive thread goes on exactly when no `get_output` raised |
| ConsoleApp.LastMessageRead | llmsat/console.py:78-93 | a message whose `get_output` raises gets no reply and ends the receive thread; no later message changes anything |
| ConsoleApp.OneReplyPerRequest | llmsat/console.py:78-104 | over any run of messages what was sent before is kept, and if the receive thread still runs at the end the controller got exactly one reply per COMMAND and per CONNECT |
| ConsoleApp.TextOnlyAnswersAll | llmsat/console.py:78-104 | while every command and the dashboard hand `perror` only strings, the receive thread never ends and each COMMAND and CONNECT gets exactly one reply |
| ConsoleApp.TextBuffered | llmsat/console.py:110-128 | writes that hand `perror` only strings buffer only strings |
| ConsoleApp.FirstObject | llmsat/console.py:163 | none exactly when every entry is a string; otherwise the position of the first entry that is not |
| ConsoleApp.Output | llmsat/console.py:161-165 | the join succeeds exactly when every entry is a string and gives the entries joined by newlines; otherwise it fails at the first non-string entry |
| ConsoleApp.OutputSplitsBack | llmsat/console.py:161-165 | when every entry is a newline-free string the join succeeds, and splitting its output at newlines gives back the entries |
| ConsoleApp.BufferedAppend | llmsat/console.py:110-128 | the entries of two runs of writes are the entries of each, in order |
| ConsoleApp.CountRepliesAppend | llmsat/console.py:106-108 | replies sent are counted additively over concatenation |
| ConsoleApp.Console.constructor | llmsat/console.py:28-76 | a new console has an empty buffer, no controller, nothing sent, and a running receive thread |
| ConsoleApp.Console.SendMessage | llmsat/console.py:106-108 | one reply is sent; nothing else changes |
| ConsoleApp.Console.Poutput | llmsat/console.py:110-117 | exactly one entry (stamped when asked) is appended to the buffer, whatever `quiet` is |
| ConsoleApp.Console.Perror | llmsat/console.py:125-128 | exactly the given value, a string or any other object, is appended to the buffer, whatever `quiet` is |
| ConsoleApp.Console.AsyncAlert | llmsat/console.py:119-123 | the alert is sent straight away and the buffer is unchanged |
| ConsoleApp.Console.GetOutput | llmsat/console.py:161-165 | returns the buffer joined by newlines in insertion order and leaves it empty; with a non-string entry the join fails at that entry and nothing changes |
| ConsoleApp.Console.Apply | llmsat/console.py:110-128 | carrying out writes in order gives the state of the specification function |
| ConsoleApp.Console.DisplayDashboard | llmsat/console.py:134-159 | the dashboard's writes are carried out in order |
| ConsoleApp.Console.Preloop | llmsat/console.py:130-132 | the dashboard is shown and its entries stay buffered for the next reply |
| ConsoleApp.Console.OnControllerCommand | llmsat/console.py:89-93 | the state after a COMMAND is the dispatch function's, a failing `get_output` ending the receive thread included |
| ConsoleApp.Console.OnControllerConnect | llmsat/console.py:95-100 | the state after a CONNECT is the dispatch function's, either failing `get_output` included |
| ConsoleApp.Console.OnControllerDisconnect | llmsat/console.py:102-104 | only the connection flag and the terminal change |
| ConsoleApp.Console.ReceiveMessage | llmsat/console.py:78-87 | one received message is dispatched on its type only |
| ConsoleApp.Console.ReceiveMessages | llmsat/console.py:78-87 | messages are dispatched in order until one ends the receive thread; later ones are not read |
| ConsoleApp.Console.PrintMessage | llmsat/libs/utils.py:92-95 | an empty message changes nothing; a non-empty one is one `poutput` |
| Utils.EpochIsStartOf1951 | llmsat/libs/utils.py:18-20 | the epoch is 1951-01-01, 712222 days after 0001-01-01 |
| Utils.UtRoundTrip | llmsat/libs/utils.py:81-83 | `get_ut` adds the UT seconds to the epoch, is inverted by subtracting the epoch, and keeps order |
| Utils.GetUt | llmsat/libs/utils.py:81-83 | the epoch plus the UT seconds; specified by UtRoundTrip |
| Utils.UtOf | llmsat/components/alarm_manager.py:196 | a datetime minus the epoch in seconds; specified by UtRoundTrip |
| Utils.Truncate | llmsat/libs/utils.py:62 | `int()` truncates toward zero, within one of the value |
| Utils.MetOf | llmsat/libs/utils.py:56-63 | MET keeps the whole seconds, dropping any fraction toward zero |
| Utils.Decompose | llmsat/libs/utils.py:66-76 | the divmod chain recombines to the seconds, with days < 365, hours < 24, minutes and seconds < 60 |
| Utils.NumeralLacks | llmsat/libs/utils.py:78 | a zero-padded numeral contains no field separator |
| Utils.FieldSplit | llmsat/libs/utils.py:78 | a display field splits back at its unit letter |
| Utils.ParseClockOf | llmsat/libs/utils.py:78 | the "hh:mm:ss" part reads back to its seconds |
| Utils.ParseFromDaysOf | llmsat/libs/utils.py:78 | the "DDDD, " part with its clock reads back to its seconds |
| Utils.ParseFromYearsOf | llmsat/libs/utils.py:78 | the "YY, " part with the rest reads back to its seconds |
| Utils.ParseDisplay | llmsat/libs/utils.py:78 | any display built from readable fields reads back to their weighted sum |
| Utils.ParseMetRoundTrip | llmsat/libs/utils.py:65-78 | reading the fields back out of `MET.__str__` recovers the second count, negative counts included |
| Utils.Render | llmsat/libs/utils.py:78 | the "T+ yY, dddD, hh:mm:ss" text of the fields; specified by ParseDisplay |
| Utils.Met.ToString | llmsat/libs/utils.py:65-78 | `MET.__str__`: the divmod fields rendered; specified by Decompose and ParseMetRoundTrip |
| TaskManager.StatusRoundTrip | llmsat/components/task_manager.py:18-21 | status values and members correspond one to one |
| TaskManager.StatusOf | llmsat/components/task_manager.py:18-21 | `TaskStatus(value)`: the member with that value, none for any other text; specified by StatusRoundTrip |
| TaskManager.MaxId | llmsat/components/task_manager.py:123-124 | the largest id, or 0 for none |
| TaskManager.NextId | llmsat/components/task_manager.py:123-124 | the new id exceeds every existing id, and is 1 for an empty table |
| TaskManager.Encode | llmsat/components/task_manager.py:190-194 | each id is written as its decimal text, entries in order |
| TaskManager.Decode | llmsat/components/task_manager.py:143-150 | each key is read back with `int()`, entries in order |
| TaskManager.EncodeDecode | llmsat/components/task_manager.py:143-194 | writing a table and reading it back gives the same int-keyed table |
| TaskManager.DecodeEncode | llmsat/components/task_manager.py:143-194 | reading a canonical file gives unique ids, and writing it back gives the same file |
| TaskManager.DecodeSnoc | llmsat/components/task_manager.py:143-150 | reading one more entry appends it under an id not read before |
| TaskManager.CanonicalPrefix | llmsat/components/task_manager.py:143-150 | any prefix of a well-formed file is well formed |
| TaskManager.WithStatus | llmsat/components/task_manager.py:181-188 | setting a status fails exactly for an unknown id |
| TaskManager.WithStatusSpec | llmsat/components/task_manager.py:181-188 | only that task's status changes; the other tasks, and the key order, are untouched |
| TaskManager.AddSpec | llmsat/components/task_manager.py:114-129 | adding under the next id appends one entry and keeps every other entry |
| TaskManager.TaskDates | llmsat/components/task_manager.py:99-112 | dates are parsed only when `-end` is given; then a missing or unparseable start or end is an error, otherwise both are returned |
| TaskManager.TaskManager.constructor | llmsat/components/task_manager.py:56-66 | the task file starts empty |
| TaskManager.TaskManager.ResetTasks | llmsat/components/task_manager.py:196-199 | the file becomes the empty object |
| TaskManager.TaskManager.ReadTasks | llmsat/components/task_manager.py:143-150 | the int-keyed table of the file, with unique ids |
| TaskManager.TaskManager.WriteTasks | llmsat/components/task_manager.py:190-194 | the file written reads back as the table |
| TaskManager.TaskManager.AddTask | llmsat/components/task_manager.py:114-129 | one PENDING task under the next id is appended and every entry is kept |
| TaskManager.TaskManager.SetTaskStatus | llmsat/components/task_manager.py:181-188 | an unknown id fails before anything is written; otherwise only that status changes |
| TaskManager.TaskManager.DoSetTaskStatus | llmsat/components/task_manager.py:166-179 | only "pending", "in progress" and "complete" are accepted; anything else is a ValueError and writes nothing |
| TaskManager.TaskManager.DoAddTask | llmsat/components/task_manager.py:99-112 | a date error writes nothing; otherwise one task is added and reported with its id |
| TaskListManager.Stored | llmsat/components/task_manager_cmd2.py:14-19 | a missing file reads as the empty list |
| TaskListManager.FirstNamed | llmsat/components/task_manager_cmd2.py:62-66 | the position of the first task with the name, none exactly when no task bears it |
| TaskListManager.WithoutNamed | llmsat/components/task_manager_cmd2.py:76 | no remaining task bears the name |
| TaskListManager.WithoutNamedSpec | llmsat/components/task_manager_cmd2.py:76-80 | every task with the name goes, every other task keeps its multiplicity, and the length is unchanged exactly when none matched |
| TaskListManager.WithoutNamedCount | llmsat/components/task_manager_cmd2.py:76 | the multiplicity of each task after deletion |
| TaskListManager.WithoutNamedLength | llmsat/components/task_manager_cmd2.py:78 | the length check detects exactly whether any task matched |
| TaskListManager.WithoutNamedOrder | llmsat/components/task_manager_cmd2.py:76 | the remaining tasks keep their relative order |
| TaskListManager.Edited | llmsat/components/task_manager_cmd2.py:100-113 | only fields given as non-empty tokens change; an unparseable due date refuses the edit |
| TaskListManager.Arg | llmsat/components/task_manager_cmd2.py:92-95 | the k-th token when there are more than k, else None |
| TaskListManager.Block | llmsat/components/task_manager_cmd2.py:51-56 | six printed lines per task |
| TaskListManager.ListingNumbered | llmsat/components/task_manager_cmd2.py:50-56 | tasks are numbered consecutively from 1 in list order, six lines each |
| TaskListManager.Listing | llmsat/components/task_manager_cmd2.py:50-56 | the printed blocks of the whole list; specified by ListingNumbered, ListingLength and ListingBlock |
| TaskListManager.ListingLength | llmsat/components/task_manager_cmd2.py:50-56 | the listing has six lines per task |
| TaskListManager.ListingBlock | llmsat/components/task_manager_cmd2.py:50-56 | the k-th block is numbered k + 1 and shows the k-th task |
| TaskListManager.CompleteFirstOnly | llmsat/components/task_manager_cmd2.py:62-66 | completing marks only the first task with the name; the others are unchanged |
| TaskListManager.TaskManager.constructor | llmsat/components/task_manager_cmd2.py:8-12 | no task file exists yet |
| TaskListManager.TaskManager.ReadTasksFile | llmsat/components/task_manager_cmd2.py:14-19 | the stored list, empty when there is no file |
| TaskListManager.TaskManager.WriteTasksFile | llmsat/components/task_manager_cmd2.py:21-23 | the file holds the list |
| TaskListManager.TaskManager.DoAddTask | llmsat/components/task_manager_cmd2.py:25-42 | an invalid date changes nothing; otherwise one uncompleted task is appended at the end |
| TaskListManager.TaskManager.PrintBlock | llmsat/components/task_manager_cmd2.py:51-56 | prints one task's six lines |
| TaskListManager.TaskManager.DoReadTasks | llmsat/components/task_manager_cmd2.py:44-56 | "No tasks found." for an empty list, otherwise the numbered listing |
| TaskListManager.TaskManager.DoCompleteTask | llmsat/components/task_manager_cmd2.py:58-72 | the first task with the name is marked completed and written; with none, nothing is written |
| TaskListManager.TaskManager.DoDeleteTask | llmsat/components/task_manager_cmd2.py:74-83 | every task with the name is deleted and the list written; with none, nothing is written |
| TaskListManager.TaskManager.DoEditTask | llmsat/components/task_manager_cmd2.py:85-121 | no token is refused; only the first matching task is edited; an invalid due date returns without writing |
| SpacecraftManager.FirstCarried | llmsat/components/spacecraft_manager.py:144-150 | the first type in order whose attribute the part carries, none exactly when it carries none |
| SpacecraftManager.DeterminePartTypeSpec | llmsat/components/spacecraft_manager.py:139-152 | the type returned is the first carried `PartType` in declaration order, or NONE when none is carried |
| SpacecraftManager.DeterminePartType | llmsat/components/spacecraft_manager.py:139-152 | `_determine_part_type`; specified by DeterminePartTypeSpec |
| SpacecraftManager.PreorderAllPrefix | llmsat/components/spacecraft_manager.py:100-105 | the pre-order of the first i+1 children extends that of the first i by child i's subtree |
| SpacecraftManager.ChildSlot | llmsat/components/spacecraft_manager.py:103-104 | each child's subtree is disjoint from its parent and its earlier siblings |
| SpacecraftManager.DistinctSlices | llmsat/components/spacecraft_manager.py:103-104 | adjacent runs of a duplicate-free pre-order share no part |
| SpacecraftManager.TagsDistinct | llmsat/components/spacecraft_manager.py:101 | `f"{tag:03}"` gives different tags different texts |
| SpacecraftManager.SubtreeBounded | llmsat/components/spacecraft_manager.py:65 | a child's subtree lies within its parent's |
| SpacecraftManager.ConstructPartTree | llmsat/components/spacecraft_manager.py:47-67 | the same shape and child order at every node; id is the part's tag, AXIAL exactly when axially attached, the type its classification |
| SpacecraftManager.TaggedPartsDistinct | llmsat/components/spacecraft_manager.py:100-107 | after tagging, different parts carry different tags |
| SpacecraftManager.SpacecraftManager.constructor | llmsat/components/spacecraft_manager.py:19-24 | construction tags every part in pre-order and touches no other slot |
| SpacecraftManager.SpacecraftManager.AssignIdsToParts | llmsat/components/spacecraft_manager.py:97-107 | the k-th part in pre-order gets the tag `ZeroPad(k, 3)`, root 0; others untouched |
| SpacecraftManager.SpacecraftManager.AssignTag | llmsat/components/spacecraft_manager.py:100-105 | tags the subtree in pre-order from `tag` and returns `tag` plus the subtree's size; others untouched |
| SpacecraftManager.SpacecraftManager.AssignChildren | llmsat/components/spacecraft_manager.py:103-104 | the children's subtrees are tagged consecutively, and the next free tag is returned |
| SpacecraftManager.SpacecraftManager.GetPartsTree | llmsat/components/spacecraft_manager.py:44-73 | the tree returned mirrors the vessel's part tree |
| SpacecraftManager.SpacecraftManager.GetResources | llmsat/components/spacecraft_manager.py:114-128 | one row per resource name, in order, with that name's amount and max |
| Autopilot.CheckStatus | llmsat/components/autopilot.py:358-369 | OFF iff disabled, ACTIVE iff enabled with thrust > 0, IDLE iff enabled with thrust <= 0 |
| Autopilot.FirstUnsafe | llmsat/components/autopilot.py:312-323 | the first node in list order below 50000 m, none exactly when all keep the threshold |
| Autopilot.PlannerError | llmsat/components/autopilot.py:80-86 | the reported text is a newline-free prefix of the message, the whole message exactly when it has no newline |
| Autopilot.PlannerErrorIsFirstLine | llmsat/components/autopilot.py:83-85 | the reported text is `split("\n", 1)[0]` |
| Autopilot.Operation | llmsat/components/autopilot.py:73-94 | a planner failure becomes ValueError with its first line and writes nothing; otherwise the nodes come back and a non-empty warning is written |
| Autopilot.DoOperation | llmsat/components/autopilot.py:59-71 | an error is written to stderr; otherwise warning, timestamped heading, then one write per node in order |
| Autopilot.FirstOff | llmsat/components/autopilot.py:337-338 | the first poll reading OFF, none exactly when none does |
| Autopilot.AutopilotService.constructor | llmsat/components/autopilot.py:28-41 | no execution or monitor has started, nothing written |
| Autopilot.AutopilotService.ValidateNodes | llmsat/components/autopilot.py:312-323 | fails on the first unsafe node in list order, passes otherwise |
| Autopilot.AutopilotService.ExecuteManeuverNodes | llmsat/components/autopilot.py:301-310 | autowarp is set, then validation; only when it passes are the nodes executed and a monitor started |
| Autopilot.AutopilotService.DoExecuteManeuverNodes | llmsat/components/autopilot.py:290-299 | a refused plan writes nothing; otherwise the node count is announced |
| Autopilot.AutopilotService.DoCheckAutopilotStatus | llmsat/components/autopilot.py:344-356 | OFF shows the status line only; otherwise remaining count len-1 and the first node, IndexError with no nodes |
| Autopilot.AutopilotService.DoRemoveNodes | llmsat/components/autopilot.py:386-393 | the nodes are removed and the count reported is the one before removal |
| Autopilot.AutopilotService.MonitorAutopilotStatus | llmsat/components/autopilot.py:335-342 | polling stops at the first OFF reading and only then sends the completion alert |
| OrbitPropagator.TimeRange | llmsat/components/orbit_propagator.py:76 | 100 evenly spaced times, both ends included |
| OrbitPropagator.TimeRangeOrdered | llmsat/components/orbit_propagator.py:76 | the grid is in time order and within the range |
| OrbitPropagator.RadiusAt | llmsat/components/orbit_propagator.py:63-81 | one sample at `date` without an end; ValueError when the end is before `date`; otherwise 100 samples over the range |
| OrbitPropagator.Unsafe | llmsat/components/orbit_propagator.py:98-100 | exactly the samples below 50000 + 252100 m |
| OrbitPropagator.MinTime | llmsat/components/orbit_propagator.py:103 | the earliest time among the samples, attained by one |
| OrbitPropagator.MaxTime | llmsat/components/orbit_propagator.py:103 | the latest time among the samples, attained by one |
| OrbitPropagator.MinRadius | llmsat/components/orbit_propagator.py:105 | the lowest radius among the samples, attained by one |
| OrbitPropagator.MaxRadius | llmsat/components/orbit_propagator.py:106 | the highest radius among the samples, attained by one |
| OrbitPropagator.CheckRadiiPasses | llmsat/components/orbit_propagator.py:97-113 | the check returns True exactly when no radius is below the safe radius |
| OrbitPropagator.CheckRadii | llmsat/components/orbit_propagator.py:94-113 | the safety check on the samples; specified by CheckRadiiPasses, CheckRadiiBounds and CheckRadiiAttained |
| OrbitPropagator.CheckRadiiBounds | llmsat/components/orbit_propagator.py:102-111 | the report's time and altitude ranges cover every unsafe sample |
| OrbitPropagator.CheckRadiiAttained | llmsat/components/orbit_propagator.py:102-111 | the report's bounds are attained by unsafe samples |
| OrbitPropagator.ValidateOrbit | llmsat/components/orbit_propagator.py:83-113 | samples [now, now + period]; True exactly when every sampled radius is safe, else the unsafe report; a negative period raises the range error |
| Eps.Charged | llmsat/components/eps.py:10-12 | min(old + amount, capacity) |
| Eps.Discharged | llmsat/components/eps.py:15-17 | max(old - amount, 0) |
| Eps.ChargedInRange | llmsat/components/eps.py:10-12 | charging by a non-negative amount keeps the charge within [0, capacity] and never lowers it |
| Eps.DischargedInRange | llmsat/components/eps.py:15-17 | discharging by a non-negative amount keeps the charge within [0, capacity] and never raises it |
| Eps.Battery.constructor | llmsat/components/eps.py:2-4 | a new battery is full |
| Eps.Battery.ChargeBattery | llmsat/components/eps.py:6-12 | the charge becomes the clamped sum; the capacity is unchanged |
| Eps.Battery.DischargeBattery | llmsat/components/eps.py:14-17 | the charge becomes the clamped difference; the capacity is unchanged |
| CommsService.CommunicationService.constructor | llmsat/components/comms_service.py:34-41 | the service starts over the given log with nothing written |
| CommsService.CommunicationService.SendMessage | llmsat/components/comms_service.py:72-86 | the log becomes the old log with the message appended; the message is returned unchanged; a missing log fails |
| CommsService.CommunicationService.DoSendMessage | llmsat/components/comms_service.py:59-70 | a message from the vessel to "MissionControl" at the current UT is logged, then "Message sent" |
| SimService.FirstMissing | llmsat/components/sim_service.py:91-93 | the first field in declaration order that is not a key, none exactly when all are |
| SimService.FirstExtra | llmsat/components/sim_service.py:95 | the first key that is no field, none exactly when every key is one |
| SimService.CheckFields | llmsat/components/sim_service.py:91-93 | reports the first missing field, passes when none is missing |
| SimService.CheckKeywords | llmsat/components/sim_service.py:95 | reports the first unexpected key, passes when there is none |
| SimService.LoadScenarioConfig | llmsat/components/sim_service.py:85-95 | first missing field of name, period_start, period_end; else first unexpected key; else a config whose fields are the object's values |
| SimService.LoadSpacecraftProperties | llmsat/components/sim_service.py:98-108 | the same over name, mass, intertia_matrix, description |
| SimService.ExtraKeysPassFieldCheck | llmsat/components/sim_service.py:104-106 | an extra key never makes the field check fail |
| ConvoToLatex.LatexContent | scripts/convo_to_latex.py:11 | the cleaned text between the `lstlisting` begin and end lines |
| ConvoToLatex.CleanWithoutMarkers | scripts/convo_to_latex.py:8 | cleaning never lengthens; text without either marker passes unchanged; a red marker shortens it |
| ConvoToLatex.Clean | scripts/convo_to_latex.py:8 | the two `replace` calls in order; specified by CleanWithoutMarkers and SpliceSurvives |
| ConvoToLatex.SpliceSurvives | scripts/convo_to_latex.py:8 | one pass per marker: "ESC[9ESC[91m1m" cleans to "ESC[91m" |
| ConvoToLatex.ProcessConversationLog | scripts/convo_to_latex.py:1-20 | a read or open failure leaves the output file as it was and prints the error; a failed write leaves the file holding a prefix of the wrapped text and prints the error; otherwise the file holds the wrapped text and the confirmation is printed |
| Text.RemoveAllShortensIffContains | scripts/convo_to_latex.py:8 | `str.replace(m, "")` shortens the text exactly when it contains the marker |
| Text.RemoveAllWithoutMarker | scripts/convo_to_latex.py:8 | replacing a marker that does not occur changes nothing |
| Text.SplitJoin | llmsat/console.py:163 | joining newline-free parts and splitting again gives the parts back |
| Text.FirstLineIsHeadOfSplit | llmsat/components/autopilot.py:83-85 | the first line is the head of the split at newlines |
| Text.SplitWhitespaceEmptyIffBlank | llmsat/components/task_manager_cmd2.py:86-88 | `split()` gives no token exactly for blank text |
| Text.ParseIntToString | llmsat/components/task_manager.py:143-150 | `int(str(i)) == i` |
| Text.IntToStringInjective | llmsat/components/task_manager.py:190-194 | different ids are written as different keys |
| Text.ParseIntZeroPad | llmsat/libs/utils.py:78 | a zero-padded integer reads back to itself |
| Text.ZeroPad | llmsat/libs/utils.py:78 | at least `width` characters, digits after an optional sign |
| PyDict.Get | llmsat/components/alarm_manager.py:193 | a lookup fails exactly for an absent key |
| PyDict.Put | llmsat/components/task_manager.py:125-127 | assigning an existing key keeps the size; a new key goes last |
| PyDict.PutSpec | llmsat/components/task_manager.py:125-127 | after `d[k] = v`, k maps to v, other keys keep their values, the key order is kept |

## Left out

- Threads and transport: the ZMQ sockets and the receive thread of the console, the
  monitor threads and `time.sleep`. One received message and one poll are atomic steps.
  The infinite monitor loops are modelled as finite runs of readings.
- kRPC, the Kerbal Alarm Clock, the maneuver planner and the node executor. What they
  report comes in as parameters or fields. Calls made on them are kept only where a
  field records them (executions, monitors, autowarp); the two below are not.
- Alarms.AlarmManager.AddAlarm: the alarm's action (`kill_warp`, stop time warp when it
  fires) and its vessel are not recorded; an `Alarm` holds only id, name, notes and time.
- Autopilot.Operation: the target each `operation_*` sets on the planner
  (`new_apoapsis`, `new_periapsis`, `new_inclination`) is not recorded; the planner's
  nodes or error come in as given.
- ConvoToLatex.ProcessConversationLog: how much a failed `write` leaves in the file is
  given as a parameter, not derived from Python's buffering.
- TaskListManager.TaskManager.DoAddTask: modelled as a direct call with the three
  arguments it declares. As a cmd2 command it would receive one parsed statement, and no
  console registers this command set.
- `strptime`/`strftime` and ISO formatting: stand-in functions `parse` and `normalize`,
  and UT text for the console. Datetimes are whole seconds since 0001-01-01.
- JSON serialisation (`json.dumps`, `model_dump_json`, `json.load`): files hold structured
  values. The `do_get_alarms` JSON text and the `do_read_tasks` JSON of the dashboard are
  not rendered.
- Floating point: orbit radii, times, battery charge and node altitudes are exact reals.
  `pd.date_range` is the exact evenly spaced grid.
- Autopilot.AutopilotService.ValidateNodes: the ValueError text with the float repr of
  the node is modelled as the offending node itself.
- OrbitPropagator.ValidateOrbit: the ValueError text with tuple reprs is modelled as the
  structured UnsafeOrbit report (body, time range, altitude range).
- Eps.Battery.ChargeBattery: the charging rate is left undefined (`...`) in the source
  and is a parameter.
- ConsoleApp.Console.AsyncAlert: the keyword arguments (the monitors pass `timestamp`)
  go on to cmd2's own `async_alert`, which is not part of this model; the alert is
  sent and shown as plain text.
- `SpacecraftManager.construct_part_tree` uses `AttachmentMode` without importing it,
  so the call raises NameError. The model uses the attachment type as the evident
  intent.
- `sim_service.py` line 70 is an incomplete statement, so the module does not parse as
  written. Only the two loader functions are modelled; the STK session in `SimService.__init__`
  is not.
- The singleton `__new__`/`_initialized` logic of the command sets, the cmd2 argument
  parsers and `do_help`.
- The `print` in `MET.__init__` and the confirmation texts the cmd2 task list prints
  by `print`, which are modelled as the `printed` lines.
- `get_spacecraft_properties`, `get_met`/`get_ut` commands, `read_mission_brief` and the
  mission brief file: the dashboard takes their output as given writes.
- The pandas DataFrame of `get_resources` is a sequence of rows.
