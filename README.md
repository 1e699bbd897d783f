# Task list of a React Native to-do app, modelled in Dafny

The app keeps a list of tasks on its home screen. Each task has an id, a title,
an optional description, a due date, a priority, a `completed` flag and a
status. Four handlers change the list: add, edit, delete and toggle. Each one
builds a new list, installs it as the screen's state and hands the same list
to `saveTasks`, which writes the whole list under one storage key. The screen
shows a derived view: a case-insensitive search on title and description, a
completion filter (`active`, `completed`, anything else), and a stable
ascending sort by due date. Tasks are entered in a modal form. The form refuses
a blank title, fills in defaults, and passes a partial record to the add or
edit handler.

Files:

- `wrappers.dfy`: the `Option` type.
- `seqs.dfy`: the `Subsequence` relation, used to state that an operation keeps order.
- `task.dfy` (module `Tasks`): the `Task` record, the partial record `TaskFields`,
  the object-spread merge `Overlay`, and the record that `NewTask` builds when a task is added.
- `task_list.dfy` (module `TaskList`): the `map`/`filter` list transformations
  of the edit, delete and toggle handlers, with their lemmas.
- `task_query.dfy` (module `TaskQuery`): the `filteredTasks` pipeline (lower-casing,
  `includes`, the mode switch, the stable sort), with its lemmas.
- `task_form.dfy` (module `TaskForm`): the form's initial values, the title guard,
  and the submitted record.
- `home_screen.dfy` (module `Home`): the class `HomeScreen`. Its fields are `tasks`,
  `editingTask` and `modalVisible`, plus a ghost log `saveCalls` of every list handed
  to `saveTasks`. Its methods are the handlers.

Modelling choices:

- A due date is an integer timestamp. This stands for the instant `new Date(dueDate)` denotes.
- The id that `Date.now().toString()` produces is a parameter `newId`.
- Storage is abstract. Loading takes what the read produced as a parameter: nothing
  stored, a failure, or a parsed list. Saving appends the list to the ghost log.
- JavaScript's `s || fallback` on strings is "s unless it is the empty string".
  A date value is always truthy.

What the code does at its edges, and the model with it:

- Editing or toggling an id that no task has is a silent no-op; nothing signals not-found.
- A failed load or save is only logged.
- Ids come from the clock and are not checked for uniqueness.
- Saves are fired without waiting for each other.

## Model

| member | source | states |
|---|---|---|
| `Tasks.Overlay` | screens/HomeScreen.js:71 | `{ ...task, ...taskData }` has every value `taskData` supplies, and keeps the task's value of every field it does not supply |
| `Tasks.OverlayTakesFields` | screens/HomeScreen.js:71 | the spread equals the task exactly when the task already agrees with every supplied field |
| `Tasks.OverlayNoFields` | screens/HomeScreen.js:71 | spreading a record that supplies nothing leaves the task unchanged |
| `Tasks.OverlayIdempotent` | screens/HomeScreen.js:71 | spreading the same fields twice equals spreading them once |
| `Tasks.OverlayMerge` | screens/HomeScreen.js:71 | two successive spreads equal one spread of the merged fields, where the later fields win |
| `Tasks.NewTask` | screens/HomeScreen.js:59-63 | the added record is never completed, even when `taskData` carries `completed`; its id is `taskData.id` when supplied (the spread comes after `id`), else the generated one; it has every other supplied value |
| `TaskList.Ids` | screens/HomeScreen.js:69-90 | helper for the lemmas that say edit and toggle keep ids: the ids of the list, position by position |
| `TaskList.EditMatching` | screens/HomeScreen.js:70-72 | same length; every task whose id is the edited id gets the fields spread over it; every other task is unchanged in its place |
| `TaskList.EditKeepsIds` | screens/HomeScreen.js:70-72 | an edit that supplies no id keeps every id, in order |
| `TaskList.EditUnchangedIff` | screens/HomeScreen.js:70-72 | the edit changes nothing exactly when every matching task already agrees with the fields, so an unknown id is a no-op |
| `TaskList.EditIdempotent` | screens/HomeScreen.js:70-72 | applying the same edit twice equals applying it once |
| `TaskList.RemoveById` | screens/HomeScreen.js:79 | no task with the id remains; every task with another id is kept; the result is a subsequence of the list |
| `TaskList.RemoveConcat` | screens/HomeScreen.js:79 | deleting distributes over concatenation, so survivors keep their relative order |
| `TaskList.RemoveUnchangedIff` | screens/HomeScreen.js:79 | deleting leaves the list unchanged if and only if no task has the id, and makes it shorter when one does |
| `TaskList.RemoveIdempotent` | screens/HomeScreen.js:78-82 | deleting the same id twice equals deleting it once |
| `TaskList.ToggleMatching` | screens/HomeScreen.js:85-87 | same length; matching tasks have `completed` flipped and every other field kept; all other tasks are unchanged |
| `TaskList.ToggleInvolution` | screens/HomeScreen.js:84-90 | toggling the same id twice restores the original list |
| `TaskList.ToggleUnchangedIff` | screens/HomeScreen.js:85-87 | toggling leaves the list unchanged if and only if no task has the id |
| `TaskList.ToggleKeepsIds` | screens/HomeScreen.js:85-87 | toggling keeps every id, in order |
| `TaskList.ToggleThenRemove` | screens/HomeScreen.js:78-90 | deleting an id after toggling it equals deleting it directly |
| `TaskQuery.Lower` | screens/HomeScreen.js:104-105 | lower-casing keeps the length, maps each character, and leaves no upper-case ASCII letter |
| `TaskQuery.LowerIdempotent` | screens/HomeScreen.js:104-105 | lower-casing twice equals lower-casing once |
| `TaskQuery.Includes` | screens/HomeScreen.js:104-105 | `s.includes(q)` holds exactly when `q` occurs in `s` at some position |
| `TaskQuery.IncludesEmpty` | screens/HomeScreen.js:104-105 | the empty string occurs in every string |
| `TaskQuery.MatchesSearch` | screens/HomeScreen.js:104-105 | a task matches exactly when the lower-cased query occurs in the lower-cased title, or the description is present and the query occurs in its lower-cased form |
| `TaskQuery.EmptyQueryMatchesAll` | screens/HomeScreen.js:104-105 | an empty search query matches every task |
| `TaskQuery.SearchIgnoresQueryCase` | screens/HomeScreen.js:104-105 | two queries that differ only in ASCII letter case match the same tasks |
| `TaskQuery.SearchIgnoresTaskCase` | screens/HomeScreen.js:104-105 | lower-casing a task's title and description does not change whether it matches |
| `TaskQuery.Keep` | screens/HomeScreen.js:107-111 | the `switch` keeps a task exactly when it matches the search and, in mode `active`, is incomplete, and, in mode `completed`, is completed; any other mode adds no condition |
| `TaskQuery.Select` | screens/HomeScreen.js:102-112 | the filtered list is a subsequence of the tasks; it holds only tasks passing search and mode, and every task that passes |
| `TaskQuery.SelectCounts` | screens/HomeScreen.js:102-112 | the filter keeps every copy of a passing task and no copy of any other task |
| `TaskQuery.SelectAll` | screens/HomeScreen.js:102-112 | when every task passes, the filter returns the list unchanged |
| `TaskQuery.DueAt` | screens/HomeScreen.js:113 | the tasks due at one instant: exactly the members due then |
| `TaskQuery.DueAtOrderAndCounts` | screens/HomeScreen.js:113 | the tasks due at one instant are a subsequence of the list, in list order, with every copy of each |
| `TaskQuery.Insert` | screens/HomeScreen.js:113 | inserting into a sorted list gives a sorted list with the task added (a multiset equality) |
| `TaskQuery.InsertTies` | screens/HomeScreen.js:113 | the inserted task goes in front of the tasks with the same due date and changes no other tie group |
| `TaskQuery.SortByDueDate` | screens/HomeScreen.js:113 | the sort is non-decreasing in due date and is a permutation of its input |
| `TaskQuery.SortIsStable` | screens/HomeScreen.js:113 | tasks with equal due dates keep their input order |
| `TaskQuery.SortedWithSameTiesUnique` | screens/HomeScreen.js:113 | two sorted lists with the same tie groups are equal, so a stable sort by due date has one possible result |
| `TaskQuery.SortCharacterized` | screens/HomeScreen.js:113 | a list is the sort of the input exactly when it is sorted and keeps the input's tie order, so any stable engine sort agrees with the model |
| `TaskQuery.FilteredTasks` | screens/HomeScreen.js:102-113 | the view is non-decreasing in due date and a permutation of the search/filter selection |
| `TaskQuery.FilteredTasksMembers` | screens/HomeScreen.js:102-113 | a task is shown exactly when it is in the list and passes search and mode |
| `TaskQuery.FilteredTasksCounts` | screens/HomeScreen.js:102-113 | the view shows each passing task as many times as the list holds it, and no other task |
| `TaskQuery.FilteredTasksStable` | screens/HomeScreen.js:102-113 | tasks with equal due dates are shown in list order |
| `TaskQuery.FilterModes` | screens/HomeScreen.js:107-109 | mode `active` shows only incomplete tasks; mode `completed` shows only completed ones |
| `TaskQuery.OtherModesSearchOnly` | screens/HomeScreen.js:110 | any other mode shows exactly the tasks that match the search |
| `TaskQuery.ViewAllIsSortedList` | screens/HomeScreen.js:102-113 | an empty query with mode `all` shows the whole list stably sorted by due date |
| `TaskForm.OrElse` | components/TaskInputModal.js:6-9 | the logical-or fallback on strings is `s` when `s` is non-empty and `fallback` when `s` is empty |
| `TaskForm.InitialForm` | components/TaskInputModal.js:6-9 | with no initial task the form starts from an empty title and description, priority `medium` and the current instant; with one, from its title, description (else empty), due date and priority (else `medium`) |
| `TaskForm.SubmittedStatus` | components/TaskInputModal.js:19 | the status is the initial task's status when there is one and it is non-empty, else `open` |
| `TaskForm.IsWhitespace` | components/TaskInputModal.js:13 | the characters `trim` removes include space, tab, line feed and carriage return, and no digit or ASCII letter |
| `TaskForm.Blank` | components/TaskInputModal.js:13 | `!title.trim()` holds exactly when every character is white space or a line terminator |
| `TaskForm.HandleSubmit` | components/TaskInputModal.js:12-20 | a submission happens exactly when the title is not blank |
| `TaskForm.SubmissionFields` | components/TaskInputModal.js:14-20 | a submission carries exactly title (untrimmed), description, due date, priority and status from the form, never an id or `completed`, and is enough to create a task from |
| `TaskForm.FreshFormNotSubmittable` | components/TaskInputModal.js:6-13 | a form with no initial task starts with an empty title and description, priority `medium` and the current instant, and cannot be submitted untouched |
| `TaskForm.NewTaskFromForm` | components/TaskInputModal.js:14-20 | adding a new form's submission creates an incomplete, `open` task with the form's values and the generated id |
| `TaskForm.UnchangedEditKeepsTask` | components/TaskInputModal.js:6-20 | submitting, unchanged, the form built from a task's values (the `useState` arguments) leaves the task as it was, when it has a non-blank title, a description and non-empty priority and status |
| `TaskForm.UnchangedEditFillsDescription` | components/TaskInputModal.js:7 | submitting, unchanged, the form built from the values of a task without a description (the `useState` arguments) gives it an empty one |
| `Home.HomeScreen.constructor` | screens/HomeScreen.js:22-24 | the screen starts with no tasks, no edited task, the form hidden, and nothing saved |
| `Home.HomeScreen.LoadTasks` | screens/HomeScreen.js:39-48 | a parsed stored list replaces `tasks`; a missing key or a read/parse failure leaves `tasks` alone; nothing is saved |
| `Home.HomeScreen.SaveTasks` | screens/HomeScreen.js:50-56 | one whole-list snapshot is handed to storage |
| `Home.HomeScreen.AddTask` | screens/HomeScreen.js:58-67 | the list becomes the old list plus the new record at the end, and exactly that list is saved once |
| `Home.HomeScreen.EditTask` | screens/HomeScreen.js:69-76 | the list becomes the edit of the old list at the edited task's id; exactly that list is saved once; afterwards no task is being edited |
| `Home.HomeScreen.DeleteTask` | screens/HomeScreen.js:78-82 | the list becomes the old list without the id, and exactly that list is saved once |
| `Home.HomeScreen.ToggleComplete` | screens/HomeScreen.js:84-90 | the list becomes the old list with the id toggled, and exactly that list is saved once |
| `Home.HomeScreen.OpenEditor` | screens/HomeScreen.js:155-158 | the row's task becomes the edited task and the form opens |
| `Home.HomeScreen.OpenNewTaskForm` | screens/HomeScreen.js:170-173 | no task is edited and the form opens |
| `Home.HomeScreen.CloseForm` | screens/HomeScreen.js:180-183 | the form closes and no task is edited |
| `Home.HomeScreen.SubmitForm` | components/TaskInputModal.js:12-22 | a blank title changes nothing and leaves the form open; otherwise the submission is routed to edit when a task is being edited and to add when not (as `onSubmit` is chosen at screens/HomeScreen.js:184), one snapshot is saved, and only then does the form close |

## Left out

- Storage I/O: the `AsyncStorage` reads and writes and `JSON.stringify`/`JSON.parse` are not modelled. They are foreign asynchronous calls. Loading takes what the read produced as a parameter. Saving only records the list it was handed.
- Write ordering and write failures: `saveTasks` is not awaited, so two writes may finish in either order. The model claims nothing about which write storage keeps last.
- Serialization round trip: not modelled. JSON would also turn a `Date` into a string, which the model does not track.
- Id generation: `Date.now().toString()` is a clock call, so the id is a parameter. Two adds in the same millisecond get the same id, so the model does not claim unique ids.
- Dates: `new Date(...)` parsing, invalid dates and `NaN` in the sort comparator are not modelled. A due date is an integer timestamp.
- Lower-casing: `TaskQuery.Lower` maps the ASCII letters only. JavaScript's `toLowerCase` follows the full Unicode case mapping.
- The engine's sort algorithm is not modelled. `TaskQuery.SortCharacterized` shows that every stable ascending sort by due date gives the same list as the model's insertion sort.
- Tasks read from storage without a title: not modelled. The JavaScript would throw in the search on such a record; the `Task` type always has a title.
- `Home.HomeScreen.AddTask`: requires `taskData` to carry title, due date, priority and status. Its only caller, the form, always supplies them (`TaskForm.SubmissionFields`). The JavaScript would store a record lacking them.
- `Home.HomeScreen.EditTask`: requires a task to be under edit. The JavaScript would throw on `editingTask.id` otherwise, and `onSubmit` selects this handler only when one is.
- `TaskForm.InitialForm`: models the initial values as `useState` is given them. React computes them only when the form first mounts, and the form stays mounted. On later edits the form therefore keeps whatever it last held. The model does not capture this, nor the user's typing into the form.
- React rendering: state batching and handlers that capture the `tasks` of an earlier render are not modelled. Handlers run one after another on the current state.
- Pull-to-refresh (`onRefresh`), the logging effects and `console` calls: left out, as asynchronous UI plumbing.
- Sign-out, the task row component, authentication, navigation, the login screen and all styles and JSX: left out. They hold no task-list logic.
