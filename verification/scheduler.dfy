/**
 * The task registry and the execution pass of the scheduler. The registry
 * maps task ids to definitions and is changed in place by registration and
 * removal; one execution pass evaluates every registered task against one
 * reference date, runs the due ones and reports every task's outcome.
 */
module Scheduler {
  import opened Wrappers
  import opened Schedule

  /** What a task's handler does when it is called: it returns a value or throws. */
  datatype Outcome =
    | Returns(value: string)
    | ThrowsError(message: string)   // throws an `Error` object with this message
    | ThrowsOther                    // throws something that is not an `Error`

  /** `TaskDefinition`: a display name, the handler's behaviour and the schedule. */
  datatype TaskDefinition = TaskDefinition(name: string, handler: Outcome, schedule: ScheduleOptions)

  /** One report entry: `{success: true, result, name}` or `{success: false, error, name}`. */
  datatype Entry =
    | Success(result: string, name: string)
    | Failure(error: string, name: string)

  /** The value of one pass: a `{message}` object, or the results keyed by task id. */
  datatype Report =
    | Message(message: string)
    | Results(entries: map<string, Entry>)

  const NoTasksMessage: string := "No tasks registered"
  const SkipMessage: string := "Task skipped - not scheduled for this day/date"
  const UnknownError: string := "Unknown error"

  // ---------------------------------------------------------------------
  // Specification of the registry operations.

  /** The registry after `registerTask(id, task)`: `id` now maps to `task`, nothing else changes. */
  function Registered(m: map<string, TaskDefinition>, id: string, task: TaskDefinition): (r: map<string, TaskDefinition>)
    ensures r.Keys == m.Keys + {id}
    ensures id in r && r[id] == task
    ensures forall k :: k in m && k != id ==> r[k] == m[k]
  {
    m[id := task]
  }

  /** The registry after `unregisterTask(id)`: `id` is gone, nothing else changes. */
  function Unregistered(m: map<string, TaskDefinition>, id: string): (r: map<string, TaskDefinition>)
    ensures r.Keys == m.Keys - {id}
    ensures forall k :: k in r ==> r[k] == m[k]
    ensures id !in m ==> r == m
  {
    if id in m then m - {id} else m
  }

  /** Registering a key twice keeps only the second definition: last write wins. */
  lemma RegisterOverwrites(m: map<string, TaskDefinition>, id: string, t1: TaskDefinition, t2: TaskDefinition)
    ensures Registered(Registered(m, id, t1), id, t2) == Registered(m, id, t2)
  {
  }

  /** Removing a key undoes registering it, and removing twice is removing once. */
  lemma UnregisterUndoesRegister(m: map<string, TaskDefinition>, id: string, t: TaskDefinition)
    ensures Unregistered(Registered(m, id, t), id) == Unregistered(m, id)
    ensures Unregistered(Unregistered(m, id), id) == Unregistered(m, id)
  {
  }

  // ---------------------------------------------------------------------
  // Specification of the execution pass.

  /** The entry a pass records for one task. */
  function EntryFor(task: TaskDefinition, now: CalendarDate, dayOverride: Option<string>): (e: Entry)
    ensures e.name == task.name
    ensures !ShouldRun(task.schedule, now, dayOverride) ==> e == Success(SkipMessage, task.name)
    ensures e.Failure? <==> ShouldRun(task.schedule, now, dayOverride) && !task.handler.Returns?
    ensures ShouldRun(task.schedule, now, dayOverride) && task.handler.Returns? ==> e.result == task.handler.value
    ensures ShouldRun(task.schedule, now, dayOverride) && task.handler.ThrowsError? ==> e.error == task.handler.message
    ensures ShouldRun(task.schedule, now, dayOverride) && task.handler.ThrowsOther? ==> e.error == UnknownError
  {
    if !ShouldRun(task.schedule, now, dayOverride) then Success(SkipMessage, task.name)
    else match task.handler
      case Returns(v) => Success(v, task.name)
      case ThrowsError(msg) => Failure(msg, task.name)
      case ThrowsOther => Failure(UnknownError, task.name)
  }

  /** The report of a pass over registry `m`: one entry per registered task, or the no-tasks message. */
  function Pass(m: map<string, TaskDefinition>, now: CalendarDate, dayOverride: Option<string>): (r: Report)
    ensures r.Message? <==> |m| == 0
    ensures r.Message? ==> r.message == NoTasksMessage
    ensures r.Results? ==> r.entries.Keys == m.Keys
    ensures r.Results? ==> forall id :: id in m ==> r.entries[id].name == m[id].name
  {
    if |m| == 0 then Message(NoTasksMessage)
    else Results(map id | id in m :: EntryFor(m[id], now, dayOverride))
  }

  /**
   * Each entry of a pass follows from its own task alone: a due task whose
   * handler returns is a success carrying the value, one whose handler throws
   * is a failure carrying the error's message (or "Unknown error"), and a task
   * that is not due is a success carrying the skip message.
   */
  lemma PassEntry(m: map<string, TaskDefinition>, now: CalendarDate, dayOverride: Option<string>, id: string)
    requires id in m
    ensures Pass(m, now, dayOverride).Results?
    ensures var e := Pass(m, now, dayOverride).entries[id];
      var t := m[id];
      && (!ShouldRun(t.schedule, now, dayOverride) ==> e == Success(SkipMessage, t.name))
      && (ShouldRun(t.schedule, now, dayOverride) && t.handler.Returns? ==> e == Success(t.handler.value, t.name))
      && (ShouldRun(t.schedule, now, dayOverride) && t.handler.ThrowsError? ==> e == Failure(t.handler.message, t.name))
      && (ShouldRun(t.schedule, now, dayOverride) && t.handler.ThrowsOther? ==> e == Failure(UnknownError, t.name))
  {
  }

  /**
   * Failure isolation: replacing any other task, for instance by one whose
   * handler throws, changes neither the set of reported tasks nor this
   * task's entry.
   */
  lemma FailureIsolated(m: map<string, TaskDefinition>, now: CalendarDate, dayOverride: Option<string>,
                                           id: string, other: string, t: TaskDefinition)
    requires id in m && other in m && other != id
    ensures var before := Pass(m, now, dayOverride);
      var after := Pass(m[other := t], now, dayOverride);
      && before.Results? && after.Results?
      && after.entries.Keys == before.entries.Keys
      && after.entries[id] == before.entries[id]
  {
  }

  /** A pass right after `registerTask(id, t)` reports `id` by `t` alone. */
  lemma PassAfterRegister(m: map<string, TaskDefinition>, id: string, t: TaskDefinition,
                          now: CalendarDate, dayOverride: Option<string>)
    ensures var r := Pass(Registered(m, id, t), now, dayOverride);
      r.Results? && r.entries[id] == EntryFor(t, now, dayOverride)
  {
  }

  /** A pass right after `unregisterTask(id)` does not mention `id`. */
  lemma PassAfterUnregister(m: map<string, TaskDefinition>, id: string,
                            now: CalendarDate, dayOverride: Option<string>)
    ensures var r := Pass(Unregistered(m, id), now, dayOverride);
      r.Results? ==> id !in r.entries
  {
  }

  // ---------------------------------------------------------------------
  // The registry object.

  /** The process-wide registry as an object: `taskRegistry` is the field `tasks`. */
  class Registry {
    var tasks: map<string, TaskDefinition>

    constructor ()
      ensures tasks == map[]
    {
      tasks := map[];
    }

    /** `registerTask`: insert, or overwrite an existing entry. */
    method RegisterTask(taskId: string, task: TaskDefinition)
      modifies this
      ensures tasks == Registered(old(tasks), taskId, task)
    {
      tasks := tasks[taskId := task];
    }

    /** `unregisterTask`: delete the entry if there is one; an unknown id is no error. */
    method UnregisterTask(taskId: string)
      modifies this
      ensures tasks == Unregistered(old(tasks), taskId)
    {
      if taskId in tasks {
        tasks := tasks - {taskId};
      }
    }

    /** `getAllTasks`: a copy with exactly the registry's ids and definitions. */
    method GetAllTasks() returns (copy: map<string, TaskDefinition>)
      ensures copy.Keys == tasks.Keys
      ensures forall id :: id in copy ==> copy[id] == tasks[id]
    {
      copy := map id | id in tasks :: tasks[id];
    }

    /**
     * `executeScheduledTasks`: take the task ids once, then for each id
     * either record the skip entry or run the handler, catching what it
     * throws, and return the results; `now` stands for the wall clock.
     */
    method ExecuteScheduledTasks(now: CalendarDate, dayOverride: Option<string>) returns (report: Report)
      ensures report == Pass(tasks, now, dayOverride)
    {
      var taskIds := tasks.Keys;
      if |taskIds| == 0 {
        return Message(NoTasksMessage);
      }
      var results: map<string, Entry> := map[];
      var remaining := taskIds;
      while remaining != {}
        invariant remaining <= taskIds
        invariant results.Keys == taskIds - remaining
        invariant forall id :: id in results ==> results[id] == EntryFor(tasks[id], now, dayOverride)
        decreases remaining
      {
        var taskId :| taskId in remaining;
        var task := tasks[taskId];
        var entry: Entry;
        if ShouldRun(task.schedule, now, dayOverride) {
          match task.handler {
            case Returns(result) =>
              entry := Success(result, task.name);
            case ThrowsError(message) =>
              entry := Failure(message, task.name);
            case ThrowsOther =>
              entry := Failure(UnknownError, task.name);
          }
        } else {
          entry := Success(SkipMessage, task.name);
        }
        results := results[taskId := entry];
        remaining := remaining - {taskId};
      }
      assert |tasks| != 0;
      report := Results(results);
    }
  }

  // ---------------------------------------------------------------------
  // A client of the registry.

  /**
   * A pass on Monday the 1st of January over three tasks: a daily one whose
   * handler throws, a weekly one registered twice, and one removed again.
   * The throwing task fails alone; its siblings still run or are skipped.
   */
  method MondayPassWithFailingSibling() returns (report: Report)
    ensures report.Results?
    ensures report.entries.Keys == {"daily-backup", "weekly-report"}
    ensures report.entries["daily-backup"] == Failure("disk full", "Daily Database Backup")
    ensures report.entries["weekly-report"] == Success("sent", "Weekly Analytics Report")
  {
    var registry := new Registry();
    var monday := ScheduleOptions(Some(["Monday"]), None, None, None);
    var backup := TaskDefinition("Daily Database Backup", ThrowsError("disk full"), ScheduleOptions(None, None, None, None));
    var weekly := TaskDefinition("Weekly Analytics Report", Returns("sent"), monday);
    registry.RegisterTask("daily-backup", backup);
    registry.RegisterTask("weekly-report", TaskDefinition("Weekly Report", Returns("draft"), monday));
    registry.RegisterTask("weekly-report", weekly);
    registry.RegisterTask("monthly-maintenance",
      TaskDefinition("Monthly System Maintenance", Returns("done"), ScheduleOptions(None, Some([1]), None, None)));
    registry.UnregisterTask("monthly-maintenance");
    assert registry.tasks.Keys == {"daily-backup", "weekly-report"};
    assert registry.tasks["daily-backup"] == backup;
    assert registry.tasks["weekly-report"] == weekly;
    var today := CalendarDate(1, 1, 0);
    MondayOnly(today, None);
    report := registry.ExecuteScheduledTasks(today, None);
    PassEntry(registry.tasks, today, None, "daily-backup");
    PassEntry(registry.tasks, today, None, "weekly-report");
  }
}
