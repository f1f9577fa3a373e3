/** Tasks and the selection predicates the finders of every layer share. */
module Tasks {
  import opened Results
  import opened Strings

  /** Task.Priority. */
  datatype Priority = Low | Medium | High

  /** A task. Dates are day numbers; a missing due date or category is None. */
  datatype Task = Task(
    id: int,
    title: string,
    description: string,
    dueDate: Option<int>,
    priority: Priority,
    category: Option<string>,
    completed: bool)

  /** Task.equals: two tasks are the same task exactly when their ids agree. */
  predicate SameTask(a: Task, b: Task) {
    a.id == b.id
  }

  // ---------------------------------------------------------------------------
  // The selection predicates of the finders, named so that every layer shares them.

  /** `task.isCompleted() == flag`. */
  function WithCompleted(flag: bool): Task -> bool {
    (t: Task) => t.completed == flag
  }

  /** Due exactly on the given day (no completion check). */
  function DueOn(day: int): Task -> bool {
    (t: Task) => t.dueDate == Some(day)
  }

  /** Due on the given day and not completed. */
  function PendingDueOn(day: int): Task -> bool {
    (t: Task) => t.dueDate == Some(day) && !t.completed
  }

  /** Has a due date strictly before the given day and is not completed. */
  function OverdueOn(day: int): Task -> bool {
    (t: Task) => t.dueDate.Some? && t.dueDate.value < day && !t.completed
  }

  /** `task.getDueDate() != null`. */
  function HasDueDate(): Task -> bool {
    (t: Task) => t.dueDate.Some?
  }

  /** Has a due date in [start, end], both ends included. */
  function DueWithin(start: int, end: int): Task -> bool {
    (t: Task) => t.dueDate.Some? && start <= t.dueDate.value <= end
  }

  /** `priority.equals(task.getPriority())`. */
  function WithPriority(p: Priority): Task -> bool {
    (t: Task) => t.priority == p
  }

  /** Category equal to c, case-sensitively. */
  function WithCategory(c: string): Task -> bool {
    (t: Task) => t.category == Some(c)
  }

  /** `category.equalsIgnoreCase(task.getCategory())`: false for a task without a category. */
  function WithCategoryIgnoringCase(c: string): Task -> bool {
    (t: Task) => t.category.Some? && EqualsIgnoreCase(c, t.category.value)
  }

  /** `task.getCategory() != null && !task.getCategory().trim().isEmpty()`. */
  function WithNamedCategory(): Task -> bool {
    (t: Task) => t.category.Some? && !IsBlank(t.category.value)
  }

  /** Every task but those with the given id (`removeIf(task -> task.getId().equals(id))`). */
  function WithoutId(id: int): Task -> bool {
    (t: Task) => t.id != id
  }

  // ---------------------------------------------------------------------------
  // Positional search by id.

  /** Index of the first task with the given id. */
  function IndexOfId(ts: seq<Task>, id: int): (r: Option<nat>)
    ensures r.Some? ==> r.value < |ts| && ts[r.value].id == id
    ensures r.Some? ==> forall k | 0 <= k < r.value :: ts[k].id != id
    ensures r.None? <==> forall k | 0 <= k < |ts| :: ts[k].id != id
  {
    if ts == [] then None
    else if ts[0].id == id then Some(0)
    else
      match IndexOfId(ts[1..], id)
      case None => None
      case Some(k) => Some(k + 1)
  }

  /** Index of the last task with the given id. */
  function LastIndexOfId(ts: seq<Task>, id: int): (r: Option<nat>)
    ensures r.Some? ==> r.value < |ts| && ts[r.value].id == id
    ensures r.Some? ==> forall k | r.value < k < |ts| :: ts[k].id != id
    ensures r.None? <==> forall k | 0 <= k < |ts| :: ts[k].id != id
  {
    if ts == [] then None
    else if ts[|ts| - 1].id == id then Some(|ts| - 1)
    else LastIndexOfId(ts[..|ts| - 1], id)
  }
}
