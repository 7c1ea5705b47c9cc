/** A task's scheduling state (src/domain/tasks/schedule.ts). */
module Schedule {
  import opened Common
  import opened PlannerTypes

  datatype TaskScheduleState = Unscheduled | DateOnly | Timed

  /** getTaskScheduleState: a planned start or end makes a task timed, else a
      due date makes it date-only, else it is unscheduled. The fields are
      tested for truthiness, so an empty string counts as unset. */
  function GetTaskScheduleState(task: Task): (state: TaskScheduleState)
    ensures state == Timed <==> Truthy(task.plannedStart) || Truthy(task.plannedEnd)
    ensures state == DateOnly <==>
              !Truthy(task.plannedStart) && !Truthy(task.plannedEnd) && Truthy(task.dueDate)
    ensures state == Unscheduled <==>
              !Truthy(task.plannedStart) && !Truthy(task.plannedEnd) && !Truthy(task.dueDate)
  {
    if Truthy(task.plannedStart) || Truthy(task.plannedEnd) then Timed
    else if Truthy(task.dueDate) then DateOnly
    else Unscheduled
  }

  /** A planned end without a planned start is still timed. */
  lemma PlannedEndAloneIsTimed(task: Task)
    requires task.plannedStart.None? && Truthy(task.plannedEnd)
    ensures GetTaskScheduleState(task) == Timed
  {
  }

  /** Only the three time fields are read: tasks that agree on them agree on
      the state, whatever their other fields. */
  lemma OnlyTimeFieldsRead(a: Task, b: Task)
    requires a.dueDate == b.dueDate && a.plannedStart == b.plannedStart && a.plannedEnd == b.plannedEnd
    ensures GetTaskScheduleState(a) == GetTaskScheduleState(b)
  {
  }

  /** An empty string in any time field behaves exactly like an unset field. */
  lemma EmptyStringIsUnset(task: Task)
    ensures GetTaskScheduleState(task.(dueDate := if task.dueDate == Some("") then None else task.dueDate))
            == GetTaskScheduleState(task)
    ensures GetTaskScheduleState(task.(plannedStart := if task.plannedStart == Some("") then None else task.plannedStart))
            == GetTaskScheduleState(task)
    ensures GetTaskScheduleState(task.(plannedEnd := if task.plannedEnd == Some("") then None else task.plannedEnd))
            == GetTaskScheduleState(task)
  {
  }
}
