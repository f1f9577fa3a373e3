/** The list-backed task store the service tests run against
    (`InMemoryTaskDao`, nested in TaskServiceTest.java). */
module TaskStore {
  import opened Results
  import opened Sequences
  import opened Tasks

  /** What a date finder of the store throws: a stored task has no due date, and
      `task.getDueDate().equals(..)` / `.isBefore(..)` dereferences null. */
  datatype StoreError = MissingDueDate

  /** Ids strictly increase along the list, so no two stored tasks share one. */
  predicate IdsIncreasing(ts: seq<Task>) {
    forall i, j | 0 <= i < j < |ts| :: ts[i].id < ts[j].id
  }

  /** Every stored id was handed out by an allocator that now stands at `next`. */
  predicate IdsIssuedBelow(ts: seq<Task>, next: int) {
    forall i | 0 <= i < |ts| :: 1 <= ts[i].id < next
  }

  /** Every stored task has a due date. */
  predicate AllDated(ts: seq<Task>) {
    forall i | 0 <= i < |ts| :: ts[i].dueDate.Some?
  }

  /** A task whose id is below every id of an increasing list can be put in front of it. */
  lemma IdsIncreasingCons(t: Task, rest: seq<Task>)
    requires IdsIncreasing(rest)
    requires forall u | u in rest :: t.id < u.id
    ensures IdsIncreasing([t] + rest)
  {
    var r := [t] + rest;
    forall i, j | 0 <= i < j < |r| ensures r[i].id < r[j].id {
      assert r[j] == rest[j - 1];
      if i > 0 {
        assert r[i] == rest[i - 1];
      }
    }
  }

  /** Dropping tasks keeps the ids increasing. */
  lemma {:induction false} FilterKeepsIdsIncreasing(ts: seq<Task>, keep: Task -> bool)
    requires IdsIncreasing(ts)
    ensures IdsIncreasing(Filter(ts, keep))
  {
    if ts != [] {
      var tail := ts[1..];
      assert IdsIncreasing(tail) by {
        forall i, j | 0 <= i < j < |tail| ensures tail[i].id < tail[j].id {
          assert tail[i] == ts[i + 1] && tail[j] == ts[j + 1];
        }
      }
      FilterKeepsIdsIncreasing(tail, keep);
      if keep(ts[0]) {
        var rest := Filter(tail, keep);
        forall u | u in rest ensures ts[0].id < u.id {
          var k :| 0 <= k < |tail| && tail[k] == u;
          assert ts[k + 1] == u;
        }
        IdsIncreasingCons(ts[0], rest);
      }
    }
  }

  /** Dropping tasks keeps every id within the issued range. */
  lemma FilterKeepsIdsIssued(ts: seq<Task>, keep: Task -> bool, next: int)
    requires IdsIssuedBelow(ts, next)
    ensures IdsIssuedBelow(Filter(ts, keep), next)
  {
    var r := Filter(ts, keep);
    forall i | 0 <= i < |r| ensures 1 <= r[i].id < next {
      var k :| 0 <= k < |ts| && ts[k] == r[i];
    }
  }

  /** A task saved under the next id is the one found under that id. */
  lemma SavedTaskIsFirstWithItsId(ts: seq<Task>, next: int, task: Task)
    requires IdsIssuedBelow(ts, next)
    ensures IndexOfId(ts + [task.(id := next)], next) == Some(|ts|)
  {
    assert (ts + [task.(id := next)])[|ts|].id == next;
  }

  /** With distinct ids, deleting by id removes exactly the one task found under it. */
  lemma DeleteRemovesOnlyTheFoundTask(ts: seq<Task>, id: int)
    requires IdsIncreasing(ts)
    requires IndexOfId(ts, id).Some?
    ensures Filter(ts, WithoutId(id)) == RemoveAt(ts, IndexOfId(ts, id).value)
  {
    var k := IndexOfId(ts, id).value;
    forall i | 0 <= i < |ts| && i != k ensures WithoutId(id)(ts[i]) {
      if i < k {
        assert ts[i].id < ts[k].id;
      } else {
        assert ts[k].id < ts[i].id;
      }
    }
    FilterRemovesOne(ts, k, WithoutId(id));
  }

  /** Completing the task at k adds one to the completed count unless it was completed already. */
  lemma CompletingOneTaskCountsOnce(ts: seq<Task>, k: nat)
    requires k < |ts|
    ensures |Filter(ts[k := ts[k].(completed := true)], WithCompleted(true))|
         == |Filter(ts, WithCompleted(true))| + (if ts[k].completed then 0 else 1)
  {
    var done := WithCompleted(true);
    var after := ts[k := ts[k].(completed := true)];
    assert ts == ts[..k] + [ts[k]] + ts[k + 1..];
    assert after == ts[..k] + [after[k]] + ts[k + 1..];
    FilterConcat(ts[..k] + [ts[k]], ts[k + 1..], done);
    FilterConcat(ts[..k] + [after[k]], ts[k + 1..], done);
    FilterAppend(ts[..k], ts[k], done);
    FilterAppend(ts[..k], after[k], done);
  }

  class InMemoryTaskDao {
    var tasks: seq<Task>  // the backing ArrayList, in insertion order
    var nextId: int       // the id the next save hands out

    ghost predicate Valid()
      reads this
    {
      1 <= nextId && IdsIncreasing(tasks) && IdsIssuedBelow(tasks, nextId)
    }

    constructor ()
      ensures Valid() && tasks == [] && nextId == 1
    {
      tasks, nextId := [], 1;
    }

    /** `findById`: the first stored task with the id. */
    function FindById(id: int): (r: Option<Task>)
      reads this
      ensures r.Some? ==> r.value.id == id && r.value in tasks
      ensures r.Some? ==> exists k | 0 <= k < |tasks| :: tasks[k] == r.value && forall j | 0 <= j < k :: tasks[j].id != id
      ensures r.None? <==> forall k | 0 <= k < |tasks| :: tasks[k].id != id
    {
      match IndexOfId(tasks, id)
      case None => None
      case Some(k) => Some(tasks[k])
    }

    /** `save`: stamps the task with the next id and appends it. */
    method Save(task: Task) returns (id: int)
      requires Valid()
      modifies this
      ensures Valid()
      ensures id == old(nextId) && id >= 1 && nextId == id + 1
      ensures tasks == old(tasks) + [task.(id := id)]
      ensures FindById(id) == Some(task.(id := id))
    {
      SavedTaskIsFirstWithItsId(tasks, nextId, task);
      id := nextId;
      nextId := nextId + 1;
      tasks := tasks + [task.(id := id)];
    }

    /** `update`: replaces the first stored task with the same id. */
    method Update(task: Task) returns (updated: bool)
      requires Valid()
      modifies this
      ensures Valid() && nextId == old(nextId)
      ensures updated <==> exists k | 0 <= k < |old(tasks)| :: old(tasks)[k].id == task.id
      ensures updated ==> tasks == old(tasks)[IndexOfId(old(tasks), task.id).value := task]
      ensures !updated ==> tasks == old(tasks)
    {
      var i := 0;
      while i < |tasks|
        invariant 0 <= i <= |tasks|
        invariant tasks == old(tasks) && nextId == old(nextId)
        invariant forall k | 0 <= k < i :: tasks[k].id != task.id
      {
        if tasks[i].id == task.id {
          assert IndexOfId(tasks, task.id) == Some(i);
          tasks := tasks[i := task];
          return true;
        }
        i := i + 1;
      }
      return false;
    }

    /** `delete`: removes every task with the id and reports whether there was one. */
    method Delete(id: int) returns (removed: bool)
      requires Valid()
      modifies this
      ensures Valid() && nextId == old(nextId)
      ensures tasks == Filter(old(tasks), WithoutId(id))
      ensures removed <==> exists k | 0 <= k < |old(tasks)| :: old(tasks)[k].id == id
      ensures FindById(id).None?
    {
      var kept := Filter(tasks, WithoutId(id));
      FilterKeepsAll(tasks, WithoutId(id));
      FilterMembership(tasks, WithoutId(id));
      FilterKeepsIdsIncreasing(tasks, WithoutId(id));
      FilterKeepsIdsIssued(tasks, WithoutId(id), nextId);
      removed := |kept| < |tasks|;
      tasks := kept;
    }

    /** `markAsCompleted`: sets the flag of the task findById returns. */
    method MarkAsCompleted(id: int) returns (marked: bool)
      requires Valid()
      modifies this
      ensures Valid() && nextId == old(nextId)
      ensures marked <==> exists k | 0 <= k < |old(tasks)| :: old(tasks)[k].id == id
      ensures marked ==> var k := IndexOfId(old(tasks), id).value;
                         tasks == old(tasks)[k := old(tasks)[k].(completed := true)]
      ensures !marked ==> tasks == old(tasks)
    {
      match IndexOfId(tasks, id)
      case None =>
        marked := false;
      case Some(k) =>
        tasks := tasks[k := tasks[k].(completed := true)];
        marked := true;
    }

    /** `findByCompleted`: the tasks whose flag matches, in store order. */
    function FindByCompleted(completed: bool): (r: seq<Task>)
      reads this
      ensures r == Filter(tasks, WithCompleted(completed))
      ensures forall t :: t in r <==> t in tasks && t.completed == completed
    {
      FilterMembership(tasks, WithCompleted(completed));
      Filter(tasks, WithCompleted(completed))
    }

    /** `getTaskCount`: the list length, which the completed and the pending tasks share out. */
    function GetTaskCount(): (n: int)
      reads this
      ensures n == |FindByCompleted(true)| + |FindByCompleted(false)|
    {
      FilterPartition(tasks, WithCompleted(true), WithCompleted(false));
      |tasks|
    }

    /** `findTodayTasks`: tasks due exactly today, completed or not. */
    function FindTodayTasks(today: int): (r: Result<seq<Task>, StoreError>)
      reads this
      ensures r.Err? <==> !AllDated(tasks)
      ensures r.Ok? ==> r.value == Filter(tasks, DueOn(today))
      ensures r.Ok? ==> forall t :: t in r.value <==> t in tasks && t.dueDate == Some(today)
    {
      FilterMembership(tasks, DueOn(today));
      if !AllDated(tasks) then Err(MissingDueDate) else Ok(Filter(tasks, DueOn(today)))
    }

    /** `findOverdueTasks`: incomplete tasks due before today. */
    function FindOverdueTasks(today: int): (r: Result<seq<Task>, StoreError>)
      reads this
      ensures r.Err? <==> !AllDated(tasks)
      ensures r.Ok? ==> r.value == Filter(tasks, OverdueOn(today))
      ensures r.Ok? ==> forall t :: t in r.value <==> t in tasks && t.dueDate.Some? && t.dueDate.value < today && !t.completed
    {
      FilterMembership(tasks, OverdueOn(today));
      if !AllDated(tasks) then Err(MissingDueDate) else Ok(Filter(tasks, OverdueOn(today)))
    }

    /** `findTasksByDateRange`: tasks due between the two days, both included. */
    function FindTasksByDateRange(start: int, end: int): (r: Result<seq<Task>, StoreError>)
      reads this
      ensures r.Err? <==> !AllDated(tasks)
      ensures r.Ok? ==> r.value == Filter(tasks, DueWithin(start, end))
      ensures r.Ok? ==> forall t :: t in r.value <==> t in tasks && t.dueDate.Some? && start <= t.dueDate.value <= end
    {
      FilterMembership(tasks, DueWithin(start, end));
      if !AllDated(tasks) then Err(MissingDueDate) else Ok(Filter(tasks, DueWithin(start, end)))
    }

    /** `findTasksByCategory`: exact, case-sensitive match; a null category matches nothing. */
    function FindTasksByCategory(category: Option<string>): (r: seq<Task>)
      reads this
      ensures category.None? ==> r == []
      ensures category.Some? ==> r == Filter(tasks, WithCategory(category.value))
      ensures category.Some? ==> forall t :: t in r <==> t in tasks && t.category == category
    {
      match category
      case None => []
      case Some(c) =>
        FilterMembership(tasks, WithCategory(c));
        Filter(tasks, WithCategory(c))
    }
  }
}
