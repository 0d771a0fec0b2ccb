/**
 * The study-task list of the Academic page: ticking a task on and off by
 * its id, narrowing the list to one subject, and the progress counts.
 */
module Academic {
  import opened Wrappers

  /** A study task as the page keeps it. */
  datatype Task = Task(id: string, subject: string, topic: string, completed: bool, duration: Option<string>)

  // ---------------------------------------------------------------------
  // Toggling
  // ---------------------------------------------------------------------

  /** `t` with `completed` flipped when its id is `id`, otherwise `t`. */
  function Toggled(t: Task, id: string): Task {
    if t.id == id then t.(completed := !t.completed) else t
  }

  /**
   * `toggleTask(id)`: every task keeps its place and every field except
   * `completed`, which flips exactly on the tasks whose id is `id`.
   */
  function ToggleTask(tasks: seq<Task>, id: string): (r: seq<Task>)
    ensures |r| == |tasks|
    ensures forall i :: 0 <= i < |tasks| ==>
      && r[i].id == tasks[i].id && r[i].subject == tasks[i].subject
      && r[i].topic == tasks[i].topic && r[i].duration == tasks[i].duration
      && (r[i].completed <==> (tasks[i].completed != (tasks[i].id == id)))
  {
    if tasks == [] then []
    else
      var rest := ToggleTask(tasks[1..], id);
      assert forall i :: 1 <= i < |tasks| ==> tasks[i] == tasks[1..][i - 1];
      [Toggled(tasks[0], id)] + rest
  }

  /** Toggling the same id twice gives the original list back. */
  lemma ToggleTwice(tasks: seq<Task>, id: string)
    ensures ToggleTask(ToggleTask(tasks, id), id) == tasks
  {
    var r := ToggleTask(ToggleTask(tasks, id), id);
    forall i | 0 <= i < |tasks|
      ensures r[i] == tasks[i]
    {
      assert r[i] == Task(tasks[i].id, tasks[i].subject, tasks[i].topic, tasks[i].completed, tasks[i].duration);
    }
  }

  /** Toggling an id that no task has changes nothing. */
  lemma ToggleAbsent(tasks: seq<Task>, id: string)
    requires forall i :: 0 <= i < |tasks| ==> tasks[i].id != id
    ensures ToggleTask(tasks, id) == tasks
  {
    var r := ToggleTask(tasks, id);
    forall i | 0 <= i < |tasks|
      ensures r[i] == tasks[i]
    {
      assert r[i] == Task(tasks[i].id, tasks[i].subject, tasks[i].topic, tasks[i].completed, tasks[i].duration);
    }
  }

  /** Toggling acts on each task by itself: toggling a concatenation toggles both parts. */
  lemma {:induction false} ToggleAppend(a: seq<Task>, b: seq<Task>, id: string)
    ensures ToggleTask(a + b, id) == ToggleTask(a, id) + ToggleTask(b, id)
  {
    if a != [] {
      assert (a + b)[1..] == a[1..] + b;
      ToggleAppend(a[1..], b, id);
    }
  }

  // ---------------------------------------------------------------------
  // Counts
  // ---------------------------------------------------------------------

  /** `tasks.filter((t) => t.completed)`. */
  function CompletedTasks(tasks: seq<Task>): (r: seq<Task>)
    ensures |r| <= |tasks|
    ensures forall t :: t in r <==> t in tasks && t.completed
  {
    if tasks == [] then []
    else (if tasks[0].completed then [tasks[0]] else []) + CompletedTasks(tasks[1..])
  }

  /** `completedToday`: how many tasks are ticked. */
  function CompletedToday(tasks: seq<Task>): (n: nat)
    ensures n <= TotalTasks(tasks)
  {
    |CompletedTasks(tasks)|
  }

  /** `totalTasks`. */
  function TotalTasks(tasks: seq<Task>): nat {
    |tasks|
  }

  /** The positions of the ticked tasks. */
  function CompletedIndices(tasks: seq<Task>): set<nat> {
    set i: nat | i < |tasks| && tasks[i].completed
  }

  lemma {:induction false} CompletedAppend(a: seq<Task>, b: seq<Task>)
    ensures CompletedTasks(a + b) == CompletedTasks(a) + CompletedTasks(b)
  {
    if a != [] {
      assert (a + b)[1..] == a[1..] + b;
      CompletedAppend(a[1..], b);
    } else {
      assert a + b == b;
    }
  }

  /** The completed count is the number of positions holding a ticked task. */
  lemma {:induction false} CompletedTodayCountsIndices(tasks: seq<Task>)
    ensures CompletedToday(tasks) == |CompletedIndices(tasks)|
    decreases |tasks|
  {
    if tasks != [] {
      var n := |tasks| - 1;
      var init := tasks[..n];
      assert tasks == init + [tasks[n]];
      CompletedTodayCountsIndices(init);
      CompletedSnoc(init, tasks[n]);
      IndicesSnoc(init, tasks[n]);
    }
  }

  lemma CompletedSnoc(init: seq<Task>, t: Task)
    ensures CompletedToday(init + [t]) == CompletedToday(init) + (if t.completed then 1 else 0)
  {
    CompletedAppend(init, [t]);
    assert CompletedTasks([t]) == if t.completed then [t] else [];
  }

  lemma IndicesSnoc(init: seq<Task>, t: Task)
    ensures |CompletedIndices(init + [t])| == |CompletedIndices(init)| + (if t.completed then 1 else 0)
  {
    var n := |init|;
    var before := CompletedIndices(init);
    var after := CompletedIndices(init + [t]);
    forall i: nat
      ensures i in after <==> i in before || (t.completed && i == n)
    {
      if i < n {
        assert (init + [t])[i] == init[i];
      }
    }
    assert n !in before;
    if t.completed {
      assert after == before + {n};
    } else {
      assert after == before;
    }
  }

  /**
   * When exactly one task has id `id` and it is not ticked, toggling `id`
   * raises the completed count by one.
   */
  lemma {:induction false} ToggleUniqueIncomplete(tasks: seq<Task>, id: string, j: nat)
    requires j < |tasks| && tasks[j].id == id && !tasks[j].completed
    requires forall i :: 0 <= i < |tasks| && i != j ==> tasks[i].id != id
    ensures CompletedToday(ToggleTask(tasks, id)) == CompletedToday(tasks) + 1
    decreases |tasks|
  {
    assert tasks == [tasks[0]] + tasks[1..];
    assert ToggleTask(tasks, id) == [Toggled(tasks[0], id)] + ToggleTask(tasks[1..], id);
    CompletedAppend([tasks[0]], tasks[1..]);
    CompletedAppend([Toggled(tasks[0], id)], ToggleTask(tasks[1..], id));
    if j == 0 {
      ToggleAbsent(tasks[1..], id);
    } else {
      ToggleUniqueIncomplete(tasks[1..], id, j - 1);
    }
  }

  // ---------------------------------------------------------------------
  // Subject filter
  // ---------------------------------------------------------------------

  /** `tasks.filter((t) => t.subject === subject)`. */
  function WithSubject(tasks: seq<Task>, subject: string): (r: seq<Task>)
    ensures |r| <= |tasks|
    ensures forall t :: t in r <==> t in tasks && t.subject == subject
  {
    if tasks == [] then []
    else (if tasks[0].subject == subject then [tasks[0]] else []) + WithSubject(tasks[1..], subject)
  }

  /**
   * `filteredTasks`: the whole list when no subject is chosen (`null`, or the
   * empty string, which is just as falsy), otherwise the tasks of that subject.
   */
  function FilteredTasks(tasks: seq<Task>, filter: Option<string>): (r: seq<Task>)
    ensures filter.None? || filter.value == "" ==> r == tasks
    ensures filter.Some? && filter.value != "" ==>
              forall t :: t in r <==> t in tasks && t.subject == filter.value
  {
    if filter.Some? && filter.value != "" then WithSubject(tasks, filter.value) else tasks
  }

  /** Filtering keeps the original order: it distributes over concatenation. */
  lemma {:induction false} WithSubjectAppend(a: seq<Task>, b: seq<Task>, subject: string)
    ensures WithSubject(a + b, subject) == WithSubject(a, subject) + WithSubject(b, subject)
  {
    if a != [] {
      assert (a + b)[1..] == a[1..] + b;
      WithSubjectAppend(a[1..], b, subject);
    } else {
      assert a + b == b;
    }
  }

  /** Each task is kept as many times as it occurs, or dropped altogether. */
  lemma {:induction false} WithSubjectCounts(tasks: seq<Task>, subject: string, t: Task)
    ensures multiset(WithSubject(tasks, subject))[t] ==
              if t.subject == subject then multiset(tasks)[t] else 0
  {
    if tasks != [] {
      assert tasks == [tasks[0]] + tasks[1..];
      WithSubjectCounts(tasks[1..], subject, t);
    }
  }

  /** A list whose tasks all have the subject passes the filter unchanged. */
  lemma {:induction false} WithSubjectOfSubject(tasks: seq<Task>, subject: string)
    requires forall i :: 0 <= i < |tasks| ==> tasks[i].subject == subject
    ensures WithSubject(tasks, subject) == tasks
  {
    if tasks != [] {
      WithSubjectOfSubject(tasks[1..], subject);
    }
  }

  /** Filtering twice by the same subject is filtering once. */
  lemma WithSubjectIdempotent(tasks: seq<Task>, subject: string)
    ensures WithSubject(WithSubject(tasks, subject), subject) == WithSubject(tasks, subject)
  {
    var r := WithSubject(tasks, subject);
    assert forall i :: 0 <= i < |r| ==> r[i] in r;
    WithSubjectOfSubject(r, subject);
  }

  /** Toggling a task does not move it in or out of a subject filter. */
  lemma {:induction false} FilterAfterToggle(tasks: seq<Task>, subject: string, id: string)
    ensures WithSubject(ToggleTask(tasks, id), subject) == ToggleTask(WithSubject(tasks, subject), id)
  {
    if tasks != [] {
      assert tasks == [tasks[0]] + tasks[1..];
      ToggleAppend([tasks[0]], tasks[1..], id);
      WithSubjectAppend([Toggled(tasks[0], id)], ToggleTask(tasks[1..], id), subject);
      WithSubjectAppend([tasks[0]], tasks[1..], subject);
      ToggleAppend(WithSubject([tasks[0]], subject), WithSubject(tasks[1..], subject), id);
      FilterAfterToggle(tasks[1..], subject, id);
    }
  }
}
