/**
 * The list transformations the home screen's handlers apply to `tasks`:
 * the `map` of the edit and toggle handlers and the `filter` of the delete
 * handler. Each returns a new list; none changes its argument.
 */
module TaskList {
  import opened Wrappers
  import opened Seqs
  import opened Tasks

  /** The ids of `tasks`, in order. */
  function Ids(tasks: seq<Task>): (r: seq<string>)
    ensures |r| == |tasks|
    ensures forall i :: 0 <= i < |tasks| ==> r[i] == tasks[i].id
  {
    if tasks == [] then [] else [tasks[0].id] + Ids(tasks[1..])
  }

  /** Whether some task carries `id`. */
  predicate HasId(tasks: seq<Task>, id: string)
  {
    exists i :: 0 <= i < |tasks| && tasks[i].id == id
  }

  /** The element the edit handler's `map` callback returns for one task. */
  function EditOne(t: Task, targetId: string, f: TaskFields): Task
  {
    if t.id == targetId then Overlay(t, f) else t
  }

  /**
   * `tasks.map(task => task.id === targetId ? { ...task, ...f } : task)`:
   * every task with the target id gets `f` spread over it, every other task
   * stays as it is, and positions do not move.
   */
  function EditMatching(tasks: seq<Task>, targetId: string, f: TaskFields): (r: seq<Task>)
    ensures |r| == |tasks|
    ensures forall i :: 0 <= i < |tasks| && tasks[i].id != targetId ==> r[i] == tasks[i]
    ensures forall i :: 0 <= i < |tasks| && tasks[i].id == targetId ==> r[i] == Overlay(tasks[i], f)
  {
    if tasks == [] then [] else [EditOne(tasks[0], targetId, f)] + EditMatching(tasks[1..], targetId, f)
  }

  /** An edit that supplies no id keeps every id, and so the order of ids. */
  lemma EditKeepsIds(tasks: seq<Task>, targetId: string, f: TaskFields)
    requires f.id.None?
    ensures Ids(EditMatching(tasks, targetId, f)) == Ids(tasks)
  {
  }

  /** An edit changes the list exactly when some task with the target id disagrees with the fields. */
  lemma EditUnchangedIff(tasks: seq<Task>, targetId: string, f: TaskFields)
    ensures EditMatching(tasks, targetId, f) == tasks <==>
            forall i :: 0 <= i < |tasks| && tasks[i].id == targetId ==> Agrees(tasks[i], f)
  {
  }

  /** Submitting the same edit twice equals submitting it once. */
  lemma EditIdempotent(tasks: seq<Task>, targetId: string, f: TaskFields)
    ensures EditMatching(EditMatching(tasks, targetId, f), targetId, f) == EditMatching(tasks, targetId, f)
  {
  }

  /**
   * `tasks.filter(task => task.id !== id)`: no task with `id` is left, every
   * other task is kept, and the survivors stay in their original order.
   */
  function RemoveById(tasks: seq<Task>, id: string): (r: seq<Task>)
    ensures forall t | t in r :: t.id != id && t in tasks
    ensures forall t | t in tasks && t.id != id :: t in r
    ensures Subsequence(r, tasks)
  {
    if tasks == [] then []
    else if tasks[0].id != id then [tasks[0]] + RemoveById(tasks[1..], id)
    else RemoveById(tasks[1..], id)
  }

  /** Deleting distributes over concatenation, so it keeps relative order. */
  lemma {:induction false} RemoveConcat(a: seq<Task>, b: seq<Task>, id: string)
    ensures RemoveById(a + b, id) == RemoveById(a, id) + RemoveById(b, id)
  {
    if a != [] {
      var ab := a + b;
      assert ab[0] == a[0] && ab[1..] == a[1..] + b;
      RemoveConcat(a[1..], b, id);
      if a[0].id != id {
        assert RemoveById(ab, id) == [a[0]] + RemoveById(a[1..] + b, id);
        assert RemoveById(a, id) == [a[0]] + RemoveById(a[1..], id);
      } else {
        assert RemoveById(ab, id) == RemoveById(a[1..] + b, id);
      }
    } else {
      assert a + b == b;
    }
  }

  /** Deleting an id that no task carries changes nothing, and deleting a present id shortens the list. */
  lemma {:induction false} RemoveUnchangedIff(tasks: seq<Task>, id: string)
    ensures RemoveById(tasks, id) == tasks <==> !HasId(tasks, id)
    ensures HasId(tasks, id) ==> |RemoveById(tasks, id)| < |tasks|
  {
    if tasks == [] {
    } else {
      RemoveUnchangedIff(tasks[1..], id);
      var r := RemoveById(tasks, id);
      if tasks[0].id == id {
        SubsequenceLength(RemoveById(tasks[1..], id), tasks[1..]);
        assert |r| < |tasks|;
      } else {
        assert HasId(tasks, id) <==> HasId(tasks[1..], id) by {
          if HasId(tasks, id) {
            var i :| 0 <= i < |tasks| && tasks[i].id == id;
            assert tasks[1..][i - 1].id == id;
          }
          if HasId(tasks[1..], id) {
            var i :| 0 <= i < |tasks[1..]| && tasks[1..][i].id == id;
            assert tasks[i + 1].id == id;
          }
        }
      }
    }
  }

  /** Deleting the same id twice equals deleting it once. */
  lemma {:induction false} RemoveIdempotent(tasks: seq<Task>, id: string)
    ensures RemoveById(RemoveById(tasks, id), id) == RemoveById(tasks, id)
  {
    var r := RemoveById(tasks, id);
    assert !HasId(r, id);
    RemoveUnchangedIff(r, id);
  }

  /** The element the toggle handler's `map` callback returns for one task. */
  function ToggleOne(t: Task, id: string): Task
  {
    if t.id == id then t.(completed := !t.completed) else t
  }

  /**
   * `tasks.map(task => task.id === id ? { ...task, completed: !task.completed } : task)`:
   * matching tasks have `completed` flipped and nothing else changed; every
   * other task stays as it is.
   */
  function ToggleMatching(tasks: seq<Task>, id: string): (r: seq<Task>)
    ensures |r| == |tasks|
    ensures forall i :: 0 <= i < |tasks| && tasks[i].id != id ==> r[i] == tasks[i]
    ensures forall i :: 0 <= i < |tasks| && tasks[i].id == id ==>
              r[i].completed == !tasks[i].completed && r[i] == tasks[i].(completed := r[i].completed)
  {
    if tasks == [] then [] else [ToggleOne(tasks[0], id)] + ToggleMatching(tasks[1..], id)
  }

  /** Toggling the same id twice restores the original list. */
  lemma ToggleInvolution(tasks: seq<Task>, id: string)
    ensures ToggleMatching(ToggleMatching(tasks, id), id) == tasks
  {
  }

  /** Toggling changes the list exactly when some task carries the id. */
  lemma ToggleUnchangedIff(tasks: seq<Task>, id: string)
    ensures ToggleMatching(tasks, id) == tasks <==> !HasId(tasks, id)
  {
  }

  /** Toggling never changes which ids are present, nor their order. */
  lemma ToggleKeepsIds(tasks: seq<Task>, id: string)
    ensures Ids(ToggleMatching(tasks, id)) == Ids(tasks)
  {
  }

  /** Deleting an id after toggling it is the same as deleting it straight away. */
  lemma {:induction false} ToggleThenRemove(tasks: seq<Task>, id: string)
    ensures RemoveById(ToggleMatching(tasks, id), id) == RemoveById(tasks, id)
  {
    if tasks != [] {
      ToggleThenRemove(tasks[1..], id);
      assert ToggleMatching(tasks, id)[1..] == ToggleMatching(tasks[1..], id);
    }
  }
}
