/**
 * The task form: the values it starts from, the title guard of its submit
 * handler, and the partial record that the handler hands to the home screen.
 */
module TaskForm {
  import opened Wrappers
  import opened Tasks

  /** The values the form holds when Save is pressed. */
  datatype FormState = FormState(title: string, description: string, dueDate: int, priority: string)

  const DefaultPriority: string := "medium"
  const DefaultStatus: string := "open"

  /** `s || fallback` on a string: the empty string is the only falsy one. */
  function OrElse(s: string, fallback: string): (r: string)
    ensures r != "" <==> s != "" || fallback != ""
    ensures s != "" ==> r == s
    ensures s == "" ==> r == fallback
  {
    if s != "" then s else fallback
  }

  /**
   * The `useState` initialisers: with no initial task, an empty title and
   * description, priority `medium` and the current instant `now`; with one,
   * its values, where an empty or missing description or an empty priority
   * falls back to the default. A date value is always truthy.
   */
  function InitialForm(initialTask: Option<Task>, now: int): (r: FormState)
    ensures initialTask.None? ==> r == FormState("", "", now, DefaultPriority)
    ensures initialTask.Some? ==>
      var t := initialTask.value;
      && r.title == t.title
      && r.description == (if t.description.Some? then t.description.value else "")
      && r.dueDate == t.dueDate
      && r.priority == (if t.priority != "" then t.priority else DefaultPriority)
  {
    match initialTask
    case None => FormState("", "", now, DefaultPriority)
    case Some(t) =>
      FormState(
        OrElse(t.title, ""),
        OrElse(t.description.GetOr(""), ""),
        t.dueDate,
        OrElse(t.priority, DefaultPriority))
  }

  /** `initialTask?.status || 'open'`. */
  function SubmittedStatus(initialTask: Option<Task>): (r: string)
    ensures r != ""
    ensures initialTask.Some? && initialTask.value.status != "" ==> r == initialTask.value.status
    ensures initialTask.None? || initialTask.value.status == "" ==> r == DefaultStatus
  {
    if initialTask.Some? then OrElse(initialTask.value.status, DefaultStatus) else DefaultStatus
  }

  /** The characters `String.prototype.trim` removes: white space and line terminators. */
  predicate IsWhitespace(c: char)
    ensures c == ' ' || c == '\t' || c == '\n' || c == '\r' ==> IsWhitespace(c)
    ensures IsWhitespace(c) ==> !('0' <= c <= '9' || 'A' <= c <= 'Z' || 'a' <= c <= 'z')
  {
    var n := c as int;
    || n == 0x09 || n == 0x0A || n == 0x0B || n == 0x0C || n == 0x0D || n == 0x20
    || n == 0xA0 || n == 0x1680 || (0x2000 <= n <= 0x200A)
    || n == 0x2028 || n == 0x2029 || n == 0x202F || n == 0x205F || n == 0x3000 || n == 0xFEFF
  }

  /** `!s.trim()`: nothing is left once white space is trimmed. */
  function Blank(s: string): (b: bool)
    ensures b <==> forall i :: 0 <= i < |s| ==> IsWhitespace(s[i])
  {
    if s == [] then true else IsWhitespace(s[0]) && Blank(s[1..])
  }

  /**
   * `handleSubmit`: a blank title submits nothing; otherwise the partial
   * record with the form's (untrimmed) values and the status.
   */
  function HandleSubmit(form: FormState, initialTask: Option<Task>): (r: Option<TaskFields>)
    ensures r.None? <==> Blank(form.title)
  {
    if Blank(form.title) then None
    else
      Some(TaskFields(
        None,
        Some(form.title),
        Some(form.description),
        Some(form.dueDate),
        Some(form.priority),
        None,
        Some(SubmittedStatus(initialTask))))
  }

  /**
   * A submission carries exactly title, description, due date, priority and
   * status, takes the form's values as they are, never supplies an id or a
   * completion flag, and is complete enough to create a task from.
   */
  lemma SubmissionFields(form: FormState, initialTask: Option<Task>)
    requires !Blank(form.title)
    ensures var f := HandleSubmit(form, initialTask).value;
      && f.id.None? && f.completed.None?
      && f.title == Some(form.title)
      && f.description == Some(form.description)
      && f.dueDate == Some(form.dueDate)
      && f.priority == Some(form.priority)
      && f.status == Some(SubmittedStatus(initialTask))
      && Creatable(f)
  {
  }

  /** A fresh form cannot be submitted untouched: its title is empty. */
  lemma FreshFormNotSubmittable(now: int)
    ensures InitialForm(None, now) == FormState("", "", now, DefaultPriority)
    ensures HandleSubmit(InitialForm(None, now), None).None?
  {
  }

  /** A task created from the submission of a new form is open and incomplete and has the form's values. */
  lemma NewTaskFromForm(newId: string, form: FormState)
    requires !Blank(form.title)
    ensures var t := NewTask(newId, HandleSubmit(form, None).value);
      && t == Task(newId, form.title, Some(form.description), form.dueDate, form.priority, false, DefaultStatus)
  {
  }

  /**
   * Editing a task and saving the prefilled form unchanged leaves the task
   * as it was, provided it has a non-blank title, a description, and non-empty
   * priority and status (otherwise the defaults are written into it).
   */
  lemma UnchangedEditKeepsTask(t: Task, now: int)
    requires !Blank(t.title) && t.description.Some? && t.priority != "" && t.status != ""
    ensures var f := HandleSubmit(InitialForm(Some(t), now), Some(t));
      f.Some? && Overlay(t, f.value) == t
  {
  }

  /** Saving a task without a description through the prefilled form stores an empty one. */
  lemma UnchangedEditFillsDescription(t: Task, now: int)
    requires !Blank(t.title) && t.description.None?
    ensures var f := HandleSubmit(InitialForm(Some(t), now), Some(t));
      f.Some? && Overlay(t, f.value).description == Some("")
  {
  }
}
