/**
 * The state the home screen owns and the handlers that replace it. Each
 * mutating handler computes a new list, installs it as `tasks` and hands the
 * same list to `saveTasks`; the storage write itself is not modelled, only
 * the record of what was handed to it.
 */
module Home {
  import opened Wrappers
  import opened Tasks
  import opened TaskList
  import opened TaskForm

  /** What reading the `tasks` key yields: nothing stored, a read or parse failure, or a parsed list. */
  datatype Stored = Missing | Unreadable | Saved(tasks: seq<Task>)

  class HomeScreen {
    /** The task list (`useState([])`). */
    var tasks: seq<Task>
    /** The task the form edits, if any (`useState(null)`). */
    var editingTask: Option<Task>
    /** Whether the task form is shown. */
    var modalVisible: bool
    /** Every list handed to `saveTasks`, oldest first; when the writes finish is not modelled. */
    ghost var saveCalls: seq<seq<Task>>

    constructor ()
      ensures tasks == [] && editingTask == None && !modalVisible && saveCalls == []
    {
      tasks := [];
      editingTask := None;
      modalVisible := false;
      saveCalls := [];
    }

    /** `loadTasks`: a parsed list replaces `tasks`; a missing key or a failure leaves it alone. Nothing is saved. */
    method LoadTasks(stored: Stored)
      modifies this`tasks
      ensures tasks == if stored.Saved? then stored.tasks else old(tasks)
    {
      if stored.Saved? {
        tasks := stored.tasks;
      }
    }

    /** `saveTasks`: hands a whole-list snapshot to storage. */
    method SaveTasks(newTasks: seq<Task>)
      modifies this`saveCalls
      ensures saveCalls == old(saveCalls) + [newTasks]
    {
      saveCalls := saveCalls + [newTasks];
    }

    /**
     * `handleAddTask`: appends the new record, which takes `taskData`'s values
     * and id (else `newId`) and is never completed; installs and saves that list.
     */
    method AddTask(newId: string, taskData: TaskFields)
      requires Creatable(taskData)
      modifies this`tasks, this`saveCalls
      ensures tasks == old(tasks) + [NewTask(newId, taskData)]
      ensures saveCalls == old(saveCalls) + [tasks]
    {
      var newTask := NewTask(newId, taskData);
      var newTasks := tasks + [newTask];
      tasks := newTasks;
      SaveTasks(newTasks);
    }

    /**
     * `handleEditTask`: spreads `taskData` over every task whose id is that of
     * the edited task, installs and saves the list, and ends the edit.
     */
    method EditTask(taskData: TaskFields)
      requires editingTask.Some?
      modifies this`tasks, this`saveCalls, this`editingTask
      ensures tasks == EditMatching(old(tasks), old(editingTask).value.id, taskData)
      ensures saveCalls == old(saveCalls) + [tasks]
      ensures editingTask == None
    {
      var newTasks := EditMatching(tasks, editingTask.value.id, taskData);
      tasks := newTasks;
      SaveTasks(newTasks);
      editingTask := None;
    }

    /** `handleDeleteTask`: drops every task with `id`, installs and saves the list. */
    method DeleteTask(id: string)
      modifies this`tasks, this`saveCalls
      ensures tasks == RemoveById(old(tasks), id)
      ensures saveCalls == old(saveCalls) + [tasks]
    {
      var newTasks := RemoveById(tasks, id);
      tasks := newTasks;
      SaveTasks(newTasks);
    }

    /** `toggleComplete`: flips `completed` of every task with `id`, installs and saves the list. */
    method ToggleComplete(id: string)
      modifies this`tasks, this`saveCalls
      ensures tasks == ToggleMatching(old(tasks), id)
      ensures saveCalls == old(saveCalls) + [tasks]
    {
      var newTasks := ToggleMatching(tasks, id);
      tasks := newTasks;
      SaveTasks(newTasks);
    }

    /** The edit action of a list row: remembers the row's task and opens the form. */
    method OpenEditor(item: Task)
      modifies this`editingTask, this`modalVisible
      ensures editingTask == Some(item) && modalVisible
    {
      editingTask := Some(item);
      modalVisible := true;
    }

    /** The add button: forgets any edited task and opens the form. */
    method OpenNewTaskForm()
      modifies this`editingTask, this`modalVisible
      ensures editingTask == None && modalVisible
    {
      editingTask := None;
      modalVisible := true;
    }

    /** The form's `onClose`: hides the form and forgets the edited task. */
    method CloseForm()
      modifies this`editingTask, this`modalVisible
      ensures editingTask == None && !modalVisible
    {
      modalVisible := false;
      editingTask := None;
    }

    /**
     * Save pressed in the form: with a blank title nothing happens and the form
     * stays open; otherwise the submission goes to the edit handler when a task
     * is being edited and to the add handler (with id `newId`) when not, and
     * only then is the form closed.
     */
    method SubmitForm(form: FormState, newId: string) returns (submitted: bool)
      modifies this`tasks, this`saveCalls, this`editingTask, this`modalVisible
      ensures submitted <==> !Blank(form.title)
      ensures !submitted ==> tasks == old(tasks) && saveCalls == old(saveCalls)
                             && editingTask == old(editingTask) && modalVisible == old(modalVisible)
      ensures submitted ==>
        var f := HandleSubmit(form, old(editingTask)).value;
        && tasks == (if old(editingTask).Some? then EditMatching(old(tasks), old(editingTask).value.id, f)
                     else old(tasks) + [NewTask(newId, f)])
        && saveCalls == old(saveCalls) + [tasks]
        && editingTask == None && !modalVisible
    {
      var result := HandleSubmit(form, editingTask);
      if result.None? {
        return false;
      }
      SubmissionFields(form, editingTask);
      if editingTask.Some? {
        EditTask(result.value);
      } else {
        AddTask(newId, result.value);
      }
      CloseForm();
      submitted := true;
    }
  }
}
