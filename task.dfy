/**
 * The task record kept by the home screen, the partial records that the form
 * hands to it, and the object-spread merge `{ ...task, ...fields }` between them.
 */
module Tasks {
  import opened Wrappers

  /**
   * One stored task. `dueDate` is the instant `new Date(dueDate)` denotes, as an
   * integer timestamp; `description` is read with `?.`, so it may be absent.
   */
  datatype Task = Task(
    id: string,
    title: string,
    description: Option<string>,
    dueDate: int,
    priority: string,
    completed: bool,
    status: string
  )

  /** A partial task record (`taskData`): a field that is `None` is not supplied. */
  datatype TaskFields = TaskFields(
    id: Option<string>,
    title: Option<string>,
    description: Option<string>,
    dueDate: Option<int>,
    priority: Option<string>,
    completed: Option<bool>,
    status: Option<string>
  )

  /** The record that supplies no field at all. */
  const NoFields: TaskFields := TaskFields(None, None, None, None, None, None, None)

  /** `{ ...t, ...f }`: every field `f` supplies replaces the one of `t`; every other field is kept. */
  function Overlay(t: Task, f: TaskFields): (r: Task)
    ensures Agrees(r, f)
    ensures f.id.None? ==> r.id == t.id
    ensures f.title.None? ==> r.title == t.title
    ensures f.description.None? ==> r.description == t.description
    ensures f.dueDate.None? ==> r.dueDate == t.dueDate
    ensures f.priority.None? ==> r.priority == t.priority
    ensures f.completed.None? ==> r.completed == t.completed
    ensures f.status.None? ==> r.status == t.status
  {
    Task(
      f.id.GetOr(t.id),
      f.title.GetOr(t.title),
      if f.description.Some? then f.description else t.description,
      f.dueDate.GetOr(t.dueDate),
      f.priority.GetOr(t.priority),
      f.completed.GetOr(t.completed),
      f.status.GetOr(t.status)
    )
  }

  /** `{ ...f, ...g }`: the fields of `g` win over those of `f`. */
  function Merge(f: TaskFields, g: TaskFields): TaskFields
  {
    TaskFields(
      if g.id.Some? then g.id else f.id,
      if g.title.Some? then g.title else f.title,
      if g.description.Some? then g.description else f.description,
      if g.dueDate.Some? then g.dueDate else f.dueDate,
      if g.priority.Some? then g.priority else f.priority,
      if g.completed.Some? then g.completed else f.completed,
      if g.status.Some? then g.status else f.status
    )
  }

  /** Whether `task` already has every value that `f` supplies. */
  predicate Agrees(t: Task, f: TaskFields)
  {
    && (f.id.Some? ==> t.id == f.id.value)
    && (f.title.Some? ==> t.title == f.title.value)
    && (f.description.Some? ==> t.description == f.description)
    && (f.dueDate.Some? ==> t.dueDate == f.dueDate.value)
    && (f.priority.Some? ==> t.priority == f.priority.value)
    && (f.completed.Some? ==> t.completed == f.completed.value)
    && (f.status.Some? ==> t.status == f.status.value)
  }

  /** An overlay changes a task exactly when the task disagrees with some supplied field. */
  lemma OverlayTakesFields(t: Task, f: TaskFields)
    ensures Overlay(t, f) == t <==> Agrees(t, f)
  {
  }

  /** Overlaying nothing leaves a task as it was. */
  lemma OverlayNoFields(t: Task)
    ensures Overlay(t, NoFields) == t
  {
  }

  /** Spreading the same fields twice is the same as spreading them once. */
  lemma OverlayIdempotent(t: Task, f: TaskFields)
    ensures Overlay(Overlay(t, f), f) == Overlay(t, f)
  {
  }

  /** Two successive spreads are one spread of the merged fields. */
  lemma OverlayMerge(t: Task, f: TaskFields, g: TaskFields)
    ensures Overlay(Overlay(t, f), g) == Overlay(t, Merge(f, g))
  {
  }

  /**
   * Whether `f` supplies every field a stored task needs (the form always
   * supplies these; `id` and `completed` are filled in by the add handler).
   */
  predicate Creatable(f: TaskFields)
  {
    f.title.Some? && f.dueDate.Some? && f.priority.Some? && f.status.Some?
  }

  /**
   * The record `{ id: newId, ...f, completed: false }` built when a task is added:
   * an id in `f` overrides `newId`, and `completed` is false whatever `f` says.
   */
  function NewTask(newId: string, f: TaskFields): (r: Task)
    requires Creatable(f)
    ensures !r.completed
    ensures r.id == f.id.GetOr(newId)
    ensures Agrees(r, f.(completed := None))
    ensures r.description == f.description
  {
    Overlay(Task(newId, "", None, 0, "", false, ""), f).(completed := false)
  }
}
