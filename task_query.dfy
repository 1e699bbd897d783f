/**
 * The derived view `filteredTasks` of the home screen: a case-insensitive
 * search on title and description, a completion filter chosen by a mode
 * string, and a stable ascending sort by due date. Nothing here changes the
 * task list it reads.
 */
module TaskQuery {
  import opened Wrappers
  import opened Seqs
  import opened Tasks

  // ----- lower-casing and substring search -----

  /** `toLowerCase` on one character, for the ASCII letters. */
  function LowerChar(c: char): char
  {
    if 'A' <= c <= 'Z' then (c as int + 32) as char else c
  }

  /** `s.toLowerCase()`, character by character. */
  function Lower(s: string): (r: string)
    ensures |r| == |s|
    ensures forall i :: 0 <= i < |s| ==> r[i] == LowerChar(s[i])
    ensures forall i :: 0 <= i < |r| ==> !('A' <= r[i] <= 'Z')
  {
    if s == [] then [] else [LowerChar(s[0])] + Lower(s[1..])
  }

  /** Lower-casing twice is lower-casing once. */
  lemma LowerIdempotent(s: string)
    ensures Lower(Lower(s)) == Lower(s)
  {
  }

  /** `q` occurs in `s` starting at position `i`. */
  predicate OccursAt(s: string, q: string, i: nat)
  {
    i + |q| <= |s| && s[i..i + |q|] == q
  }

  /** `q` occurs somewhere in `s`. */
  ghost predicate Occurs(s: string, q: string)
  {
    exists i: nat :: OccursAt(s, q, i)
  }

  /** `s.includes(q)`: some position of `s` starts an occurrence of `q`. */
  function Includes(s: string, q: string): (b: bool)
    ensures b <==> Occurs(s, q)
  {
    if OccursAt(s, q, 0) then
      true
    else if s == [] then
      false
    else
      IncludesStep(s, q);
      Includes(s[1..], q)
  }

  /** An occurrence in `s[1..]` at `i` is an occurrence in `s` at `i + 1`, and back. */
  lemma ShiftOccurrence(s: string, q: string, i: nat)
    requires s != []
    ensures OccursAt(s[1..], q, i) <==> OccursAt(s, q, i + 1)
  {
  }

  /** When `q` does not start `s`, it occurs in `s` exactly when it occurs in `s[1..]`. */
  lemma IncludesStep(s: string, q: string)
    requires s != [] && !OccursAt(s, q, 0)
    ensures Occurs(s, q) <==> Occurs(s[1..], q)
  {
    if i: nat :| OccursAt(s, q, i) {
      ShiftOccurrence(s, q, i - 1);
    }
    if j: nat :| OccursAt(s[1..], q, j) {
      ShiftOccurrence(s, q, j);
    }
  }

  /** The empty string occurs in every string. */
  lemma IncludesEmpty(s: string)
    ensures Includes(s, "")
  {
  }

  // ----- search and completion filter -----

  /**
   * The `matchesSearch` test: the lower-cased query occurs in the lower-cased
   * title, or the description is present and it occurs in the lower-cased
   * description.
   */
  predicate MatchesSearch(t: Task, query: string): (b: bool)
    ensures b <==> Occurs(Lower(t.title), Lower(query))
                   || (t.description.Some? && Occurs(Lower(t.description.value), Lower(query)))
  {
    || Includes(Lower(t.title), Lower(query))
    || (t.description.Some? && Includes(Lower(t.description.value), Lower(query)))
  }

  /** The empty query matches every task. */
  lemma EmptyQueryMatchesAll(t: Task)
    ensures MatchesSearch(t, "")
  {
  }

  /** Search ignores the case of ASCII letters in the query. */
  lemma SearchIgnoresQueryCase(t: Task, q1: string, q2: string)
    requires Lower(q1) == Lower(q2)
    ensures MatchesSearch(t, q1) == MatchesSearch(t, q2)
  {
  }

  /** Search ignores the case of ASCII letters in the title and description. */
  lemma SearchIgnoresTaskCase(t: Task, query: string)
    ensures MatchesSearch(t, query) ==
            MatchesSearch(t.(title := Lower(t.title),
                             description := if t.description.Some? then Some(Lower(t.description.value)) else None),
                          query)
  {
    LowerIdempotent(t.title);
    if t.description.Some? {
      LowerIdempotent(t.description.value);
    }
  }

  const ActiveMode: string := "active"
  const CompletedMode: string := "completed"

  /** The `filter` callback: the `switch` on the mode, where any other mode applies search alone. */
  predicate Keep(t: Task, query: string, mode: string)
    ensures Keep(t, query, mode) <==>
      && MatchesSearch(t, query)
      && (mode == ActiveMode ==> !t.completed)
      && (mode == CompletedMode ==> t.completed)
  {
    if mode == ActiveMode then !t.completed && MatchesSearch(t, query)
    else if mode == CompletedMode then t.completed && MatchesSearch(t, query)
    else MatchesSearch(t, query)
  }

  /**
   * `tasks.filter(keep)`: exactly the tasks that pass the callback, in their
   * original order.
   */
  function Select(tasks: seq<Task>, query: string, mode: string): (r: seq<Task>)
    ensures Subsequence(r, tasks)
    ensures forall t | t in r :: Keep(t, query, mode)
    ensures forall t | t in tasks && Keep(t, query, mode) :: t in r
  {
    if tasks == [] then []
    else if Keep(tasks[0], query, mode) then [tasks[0]] + Select(tasks[1..], query, mode)
    else Select(tasks[1..], query, mode)
  }

  /** The filter keeps every copy of a task that passes and no copy of one that does not. */
  lemma {:induction false} SelectCounts(tasks: seq<Task>, query: string, mode: string)
    ensures forall t :: multiset(Select(tasks, query, mode))[t] ==
                        if Keep(t, query, mode) then multiset(tasks)[t] else 0
  {
    if tasks != [] {
      SelectCounts(tasks[1..], query, mode);
      assert tasks == [tasks[0]] + tasks[1..];
    }
  }

  /** When the callback keeps every task, the filter returns the list unchanged. */
  lemma {:induction false} SelectAll(tasks: seq<Task>, query: string, mode: string)
    requires forall t | t in tasks :: Keep(t, query, mode)
    ensures Select(tasks, query, mode) == tasks
  {
    if tasks != [] {
      assert forall t | t in tasks[1..] :: t in tasks;
      SelectAll(tasks[1..], query, mode);
    }
  }

  // ----- stable sort by due date -----

  /** Non-decreasing in `dueDate`. */
  predicate SortedByDueDate(s: seq<Task>)
  {
    forall i, j :: 0 <= i < j < |s| ==> s[i].dueDate <= s[j].dueDate
  }

  /** The tasks of `s` due at `d`, in their order in `s` and with their multiplicities. */
  function DueAt(s: seq<Task>, d: int): (r: seq<Task>)
    ensures forall t | t in r :: t.dueDate == d && t in s
    ensures forall t | t in s && t.dueDate == d :: t in r
  {
    if s == [] then []
    else if s[0].dueDate == d then [s[0]] + DueAt(s[1..], d)
    else DueAt(s[1..], d)
  }

  /** The tasks due at `d` keep their order in `s` and every copy of each. */
  lemma {:induction false} DueAtOrderAndCounts(s: seq<Task>, d: int)
    ensures Subsequence(DueAt(s, d), s)
    ensures forall t :: multiset(DueAt(s, d))[t] == if t.dueDate == d then multiset(s)[t] else 0
  {
    if s != [] {
      DueAtOrderAndCounts(s[1..], d);
      assert s == [s[0]] + s[1..];
      var r := DueAt(s, d);
      if s[0].dueDate == d {
        assert r[0] == s[0] && r[1..] == DueAt(s[1..], d);
      }
    }
  }

  /**
   * A stable arrangement of `s` by due date: for every due date, the tasks
   * due then appear in the same relative order as in `s`.
   */
  ghost predicate SameTies(r: seq<Task>, s: seq<Task>)
  {
    forall d :: DueAt(r, d) == DueAt(s, d)
  }

  /** Places `t` before the first task of `s` due no earlier than `t`. */
  function Insert(t: Task, s: seq<Task>): (r: seq<Task>)
    requires SortedByDueDate(s)
    ensures SortedByDueDate(r)
    ensures multiset(r) == multiset(s) + multiset{t}
    ensures |r| == |s| + 1 && (r[0] == t || (s != [] && r[0] == s[0]))
  {
    if s == [] || t.dueDate <= s[0].dueDate then
      [t] + s
    else
      var rest := Insert(t, s[1..]);
      assert s == [s[0]] + s[1..];
      assert forall j :: 0 <= j < |rest| ==> s[0].dueDate <= rest[j].dueDate;
      [s[0]] + rest
  }

  /** Inserting `t` adds it in front of the tasks of the same due date, and nowhere else. */
  lemma {:induction false} InsertTies(t: Task, s: seq<Task>, d: int)
    requires SortedByDueDate(s)
    ensures DueAt(Insert(t, s), d) == (if t.dueDate == d then [t] else []) + DueAt(s, d)
  {
    if s == [] || t.dueDate <= s[0].dueDate {
      var r := [t] + s;
      assert r[1..] == s;
    } else {
      var rest := Insert(t, s[1..]);
      InsertTies(t, s[1..], d);
      var r := [s[0]] + rest;
      assert r[1..] == rest;
      if s[0].dueDate == d {
        assert DueAt(r, d) == [s[0]] + DueAt(rest, d);
      }
    }
  }

  /** Insertion sort on the due date: `.sort((a, b) => a.dueDate - b.dueDate)`. */
  function SortByDueDate(s: seq<Task>): (r: seq<Task>)
    ensures SortedByDueDate(r)
    ensures multiset(r) == multiset(s)
  {
    if s == [] then []
    else
      assert s == [s[0]] + s[1..];
      Insert(s[0], SortByDueDate(s[1..]))
  }

  /** The sort is stable: equal due dates keep their input order. */
  lemma {:induction false} SortIsStable(s: seq<Task>)
    ensures SameTies(SortByDueDate(s), s)
  {
    if s != [] {
      SortIsStable(s[1..]);
      forall d ensures DueAt(SortByDueDate(s), d) == DueAt(s, d) {
        InsertTies(s[0], SortByDueDate(s[1..]), d);
      }
    }
  }

  /** Dropping the head of a sequence drops it from its due date's ties. */
  lemma DueAtTail(s: seq<Task>, d: int)
    requires s != []
    ensures DueAt(s[1..], d) == if s[0].dueDate == d then DueAt(s, d)[1..] else DueAt(s, d)
  {
  }

  /**
   * Two sorted arrangements with the same ties are equal: a stable sort by
   * due date has exactly one possible result.
   */
  lemma {:induction false} SortedWithSameTiesUnique(a: seq<Task>, b: seq<Task>)
    requires SortedByDueDate(a) && SortedByDueDate(b)
    requires SameTies(a, b)
    ensures a == b
    decreases |a|
  {
    if a != [] {
      assert a[0] in DueAt(a, a[0].dueDate);
      assert b != [] && b[0] in DueAt(b, b[0].dueDate);
      assert b[0] in a by {
        assert b[0] in DueAt(a, b[0].dueDate);
      }
      assert a[0] in b by {
        assert a[0] in DueAt(b, a[0].dueDate);
      }
      var d := a[0].dueDate;
      assert b[0].dueDate == d;
      assert DueAt(a, d)[0] == a[0] && DueAt(b, d)[0] == b[0];
      forall e ensures DueAt(a[1..], e) == DueAt(b[1..], e) {
        DueAtTail(a, e);
        DueAtTail(b, e);
      }
      SortedWithSameTiesUnique(a[1..], b[1..]);
      assert a == [a[0]] + a[1..] && b == [b[0]] + b[1..];
    }
  }

  /** A sequence is the sort of `s` exactly when it is sorted and keeps the ties of `s`. */
  lemma SortCharacterized(s: seq<Task>, r: seq<Task>)
    ensures r == SortByDueDate(s) <==> SortedByDueDate(r) && SameTies(r, s)
  {
    SortIsStable(s);
    if SortedByDueDate(r) && SameTies(r, s) {
      SortedWithSameTiesUnique(r, SortByDueDate(s));
    }
  }

  // ----- the view -----

  /** `filteredTasks`: the selected tasks sorted ascending by due date. */
  function FilteredTasks(tasks: seq<Task>, query: string, mode: string): (r: seq<Task>)
    ensures SortedByDueDate(r)
    ensures multiset(r) == multiset(Select(tasks, query, mode))
  {
    SortByDueDate(Select(tasks, query, mode))
  }

  /** A task is shown exactly when it is in the list and passes search and filter. */
  lemma FilteredTasksMembers(tasks: seq<Task>, query: string, mode: string, t: Task)
    ensures t in FilteredTasks(tasks, query, mode) <==> t in tasks && Keep(t, query, mode)
  {
    var sel := Select(tasks, query, mode);
    assert t in FilteredTasks(tasks, query, mode) <==> t in multiset(sel);
    if t in sel {
      SubsequenceMembers(sel, tasks, t);
    }
  }

  /** Each task is shown as many times as it is in the list when it passes search and mode, else never. */
  lemma FilteredTasksCounts(tasks: seq<Task>, query: string, mode: string)
    ensures forall t :: multiset(FilteredTasks(tasks, query, mode))[t] ==
                        if Keep(t, query, mode) then multiset(tasks)[t] else 0
  {
    SelectCounts(tasks, query, mode);
  }

  /** Equal due dates are shown in list order. */
  lemma FilteredTasksStable(tasks: seq<Task>, query: string, mode: string)
    ensures SameTies(FilteredTasks(tasks, query, mode), Select(tasks, query, mode))
  {
    SortIsStable(Select(tasks, query, mode));
  }

  /** The active mode shows only incomplete tasks, the completed mode only completed ones. */
  lemma FilterModes(tasks: seq<Task>, query: string, t: Task)
    ensures t in FilteredTasks(tasks, query, ActiveMode) ==> !t.completed
    ensures t in FilteredTasks(tasks, query, CompletedMode) ==> t.completed
  {
    FilteredTasksMembers(tasks, query, ActiveMode, t);
    FilteredTasksMembers(tasks, query, CompletedMode, t);
  }

  /** Any mode other than active and completed applies the search alone. */
  lemma OtherModesSearchOnly(tasks: seq<Task>, query: string, mode: string, t: Task)
    requires mode != ActiveMode && mode != CompletedMode
    ensures t in FilteredTasks(tasks, query, mode) <==> t in tasks && MatchesSearch(t, query)
  {
    FilteredTasksMembers(tasks, query, mode, t);
  }

  /** With an empty query and the `all` mode, the view is the whole list sorted stably by due date. */
  lemma ViewAllIsSortedList(tasks: seq<Task>)
    ensures FilteredTasks(tasks, "", "all") == SortByDueDate(tasks)
  {
  }
}
