/**
 Task rows and the guard every transaction that writes one passes: a live execution
 lease fences the row, and a terminal row no longer moves.
 */
module Tasks {
  import opened Wrappers
  import opened Ownership

  type TaskId = string

  datatype TaskState = TaskPending | TaskRunning | TaskPaused | TaskCompleted | TaskFailed | TaskCancelled

  predicate Terminal(s: TaskState) {
    s in {TaskCompleted, TaskFailed, TaskCancelled}
  }

  /** `noted` says that the task's failures list the ambiguous-cancellation failure. */
  datatype Task = Task(state: TaskState, phase: string, noted: bool)

  predicate ExecutionActive(rows: Rows, task: TaskId, sight: Sight) {
    var key := Key(TaskExecution, task);
    key in rows && !Reclaimable(rows[key], sight)
  }

  predicate ExecutionHeld(rows: Rows, task: TaskId, selected: Option<Owner>, now: int, sight: Sight) {
    var key := Key(TaskExecution, task);
    && selected.Some? && Held(rows, key, selected.value)
    && rows[key].expires > now && OwnerAlive(selected.value.process, sight)
  }

  /** A live executor admits no writer but itself. */
  predicate Unfenced(rows: Rows, task: TaskId, selected: Option<Owner>, now: int, sight: Sight) {
    ExecutionActive(rows, task, sight) ==> ExecutionHeld(rows, task, selected, now, sight)
  }

  function Written(task: Task, state: Option<TaskState>, phase: Option<string>): Task {
    task.(state := if state.Some? then state.value else task.state,
          phase := if phase.Some? then phase.value else task.phase)
  }

  predicate MayWrite(rows: Rows, tasks: map<TaskId, Task>, task: TaskId, selected: Option<Owner>,
                     state: Option<TaskState>, phase: Option<string>, now: int, sight: Sight) {
    && task in tasks
    && Unfenced(rows, task, selected, now, sight)
    && (Terminal(tasks[task].state) ==>
          && state in {None, Some(tasks[task].state)} && phase in {None, Some(tasks[task].phase)})
  }

  /** Explicit recovery of a failed task; refused after an ambiguous cancellation. */
  predicate MayRecover(rows: Rows, tasks: map<TaskId, Task>, task: TaskId, sight: Sight) {
    && task in tasks && !ExecutionActive(rows, task, sight)
    && tasks[task].state == TaskFailed && tasks[task].phase != CANCELLATION_RECOVERY_PHASE
  }

  /** A writer gets through exactly if no executor may be alive, or it is the live executor
      itself under an unexpired lease, and a row that ended stays as it ended. */
  lemma WritesPast(rows: Rows, tasks: map<TaskId, Task>, task: TaskId, selected: Option<Owner>,
                   state: Option<TaskState>, phase: Option<string>, now: int, sight: Sight)
    ensures
      var key := Key(TaskExecution, task);
      MayWrite(rows, tasks, task, selected, state, phase, now, sight) <==>
        && task in tasks
        && (|| key !in rows
            || Reclaimable(rows[key], sight)
            || (&& selected == Some(rows[key].owner) && rows[key].expires > now
                && rows[key].owner.process.start != "" && rows[key].owner.process in sight.readable - sight.gone))
        && (|| tasks[task].state in {TaskPending, TaskRunning, TaskPaused}
            || Written(tasks[task], state, phase) == tasks[task])
  {
    if task in tasks {
      var was := tasks[task];
      assert was.state.TaskPending? || was.state.TaskRunning? || was.state.TaskPaused? || Terminal(was.state);
      assert state in {None, Some(was.state)} <==> (state.Some? ==> state.value == was.state);
      assert phase in {None, Some(was.phase)} <==> (phase.Some? ==> phase.value == was.phase);
    }
  }

  /** A failed task, and no other, is recovered, unless its cancellation was ambiguous or an
      executor may be alive. */
  lemma RecoversFailed(rows: Rows, tasks: map<TaskId, Task>, task: TaskId, sight: Sight)
    ensures MayRecover(rows, tasks, task, sight) <==>
      && task in tasks && tasks[task].state == TaskFailed && tasks[task].phase != "cancellation-recovery-required"
      && (Key(TaskExecution, task) in rows ==> Reclaimable(rows[Key(TaskExecution, task)], sight))
  {
  }

  /** What is written is exactly what was given; the rest of the row stays. */
  lemma WritesGiven(task: Task, state: TaskState, phase: string)
    ensures Written(task, Some(state), Some(phase)) == Task(state, phase, task.noted)
    ensures Written(task, Some(state), None) == Task(state, task.phase, task.noted)
    ensures Written(task, None, Some(phase)) == Task(task.state, phase, task.noted)
    ensures Written(task, None, None) == task
  {
  }
}
