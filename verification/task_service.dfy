/** TaskService.java over the in-memory store: a time-stamped read cache that every mutation
    drops, pass-through mutators and finders, and the filters and counts built on them.
    The clock (`System.currentTimeMillis()`) and the day (`LocalDate.now()` inside the store)
    are parameters. */
module Service {
  import opened Results
  import opened Strings
  import opened Sequences
  import opened Tasks
  import opened TaskStore

  /** `CACHE_TIMEOUT_MS`: a cache younger than this many milliseconds is served as is. */
  const CacheTimeoutMs: int := 30000

  /** The `limit(1000)` of getCategoryStatistics when it has to load the tasks first. */
  const StatisticsLimit: nat := 1000

  /** `groupingBy(Task::getCategory, counting())`; tasks without a category are skipped
      (the callers filter them out before grouping). */
  function CountByCategory(ts: seq<Task>): (m: map<string, nat>)
    ensures forall c | c in m :: m[c] > 0
  {
    if ts == [] then map[]
    else
      var m := CountByCategory(ts[..|ts| - 1]);
      match ts[|ts| - 1].category
      case None => m
      case Some(c) => m[c := (if c in m then m[c] else 0) + 1]
  }

  /** A category is a key exactly when some task carries it, and its value is how many do. */
  lemma {:induction false} CountByCategoryCounts(ts: seq<Task>, c: string)
    ensures c in CountByCategory(ts) <==> |Filter(ts, WithCategory(c))| > 0
    ensures c in CountByCategory(ts) ==> CountByCategory(ts)[c] == |Filter(ts, WithCategory(c))|
  {
    if ts != [] {
      var init := ts[..|ts| - 1];
      assert ts == init + [ts[|ts| - 1]];
      FilterAppend(init, ts[|ts| - 1], WithCategory(c));
      CountByCategoryCounts(init, c);
    }
  }

  /** The map getCategoryStatistics builds from a list: tasks with a non-blank category, counted per category. */
  function CategoryStatistics(ts: seq<Task>): (m: map<string, nat>)
    ensures forall c | c in m :: !IsBlank(c) && 0 < m[c] <= |ts|
  {
    var named := Filter(ts, WithNamedCategory());
    CountByCategoryKeys(named);
    CountByCategory(named)
  }

  /** Every key of the grouping is the category of some task, and no count exceeds the list. */
  lemma {:induction false} CountByCategoryKeys(ts: seq<Task>)
    ensures forall c | c in CountByCategory(ts) :: CountByCategory(ts)[c] <= |ts|
    ensures forall c | c in CountByCategory(ts) :: exists i | 0 <= i < |ts| :: ts[i].category == Some(c)
  {
    if ts != [] {
      var init := ts[..|ts| - 1];
      CountByCategoryKeys(init);
      forall c | c in CountByCategory(ts) ensures exists i | 0 <= i < |ts| :: ts[i].category == Some(c) {
        if ts[|ts| - 1].category != Some(c) {
          var i :| 0 <= i < |init| && init[i].category == Some(c);
          assert ts[i] == init[i];
        }
      }
    }
  }

  /** Null and blank categories are never keys; every other category maps to the number of
      tasks carrying exactly it, and is a key exactly when that number is positive. */
  lemma CategoryStatisticsCounts(ts: seq<Task>, c: string)
    ensures c in CategoryStatistics(ts) <==> !IsBlank(c) && |Filter(ts, WithCategory(c))| > 0
    ensures c in CategoryStatistics(ts) ==> CategoryStatistics(ts)[c] == |Filter(ts, WithCategory(c))|
  {
    var named := Filter(ts, WithNamedCategory());
    CountByCategoryCounts(named, c);
    if IsBlank(c) {
      FilterMembership(ts, WithNamedCategory());
      FilterNone(named, WithCategory(c));
    } else {
      FilterTwice(ts, WithNamedCategory(), WithCategory(c), WithCategory(c));
    }
  }

  /** The service's cached lookup ignores case while the store's lookup does not: the same
      query over the same task answers differently depending on whether the cache is valid. */
  lemma CategoryLookupDependsOnCache(t: Task)
    requires t.category == Some("Work")
    ensures Filter([t], WithCategoryIgnoringCase("work")) == [t]
    ensures Filter([t], WithCategory("work")) == []
  {
    assert EqualsIgnoreCase("work", "Work") by {
      assert ToLowerAscii('W') == 'w';
    }
    assert [t][1..] == [];
  }

  class TaskService {
    const dao: InMemoryTaskDao
    var cachedTasks: Option<seq<Task>>  // null until the first load, and after every mutation
    var cacheValid: bool
    var lastCacheTime: int              // milliseconds

    /** The store is sound, and a cache that is there is valid and holds exactly what the store
        holds: every mutation goes through the service, which drops the cache first. */
    ghost predicate Valid()
      reads this, dao
    {
      dao.Valid()
      && (cacheValid <==> cachedTasks.Some?)
      && (cachedTasks.Some? ==> cachedTasks.value == dao.tasks)
    }

    constructor (dao: InMemoryTaskDao)
      requires dao.Valid()
      ensures Valid()
      ensures this.dao == dao && cachedTasks.None? && !cacheValid && lastCacheTime == 0
    {
      this.dao := dao;
      cachedTasks := None;
      cacheValid := false;
      lastCacheTime := 0;
    }

    /** findAll serves the cache at `now` without asking the store. */
    predicate CacheFresh(now: int)
      reads this
      // only a cache that is there is served, and it expires at 30000 ms, not after
      ensures CacheFresh(now) ==> cachedTasks.Some?
      ensures now - lastCacheTime >= CacheTimeoutMs ==> !CacheFresh(now)
    {
      cacheValid && cachedTasks.Some? && now - lastCacheTime < CacheTimeoutMs
    }

    method InvalidateCache()
      requires dao.Valid()
      modifies this
      ensures Valid()
      ensures !cacheValid && cachedTasks.None? && lastCacheTime == old(lastCacheTime)
    {
      cacheValid := false;
      cachedTasks := None;
    }

    /** findAll: the store's tasks, from a fresh cache when there is one, otherwise loaded and cached at `now`. */
    method FindAll(now: int) returns (r: seq<Task>)
      requires Valid()
      modifies this
      ensures Valid()
      ensures r == dao.tasks
      ensures old(CacheFresh(now)) ==> unchanged(this)
      ensures !old(CacheFresh(now)) ==> cacheValid && cachedTasks == Some(r) && lastCacheTime == now
      ensures CacheFresh(now)
    {
      if cacheValid && cachedTasks.Some? && now - lastCacheTime < CacheTimeoutMs {
        return cachedTasks.value;
      }
      r := dao.tasks;
      cachedTasks := Some(r);
      cacheValid := true;
      lastCacheTime := now;
    }

    method Save(task: Task) returns (id: int)
      requires Valid()
      modifies this, dao
      ensures Valid()
      ensures !cacheValid && cachedTasks.None? && lastCacheTime == old(lastCacheTime)
      ensures id == old(dao.nextId) && id >= 1 && dao.nextId == id + 1
      ensures dao.tasks == old(dao.tasks) + [task.(id := id)]
    {
      InvalidateCache();
      id := dao.Save(task);
    }

    method Update(task: Task) returns (updated: bool)
      requires Valid()
      modifies this, dao
      ensures Valid()
      ensures !cacheValid && cachedTasks.None? && lastCacheTime == old(lastCacheTime)
      ensures dao.nextId == old(dao.nextId)
      ensures updated <==> exists k | 0 <= k < |old(dao.tasks)| :: old(dao.tasks)[k].id == task.id
      ensures updated ==> dao.tasks == old(dao.tasks)[IndexOfId(old(dao.tasks), task.id).value := task]
      ensures !updated ==> dao.tasks == old(dao.tasks)
    {
      InvalidateCache();
      updated := dao.Update(task);
    }

    method Delete(id: int) returns (removed: bool)
      requires Valid()
      modifies this, dao
      ensures Valid()
      ensures !cacheValid && cachedTasks.None? && lastCacheTime == old(lastCacheTime)
      ensures dao.nextId == old(dao.nextId)
      ensures dao.tasks == Filter(old(dao.tasks), WithoutId(id))
      ensures removed <==> exists k | 0 <= k < |old(dao.tasks)| :: old(dao.tasks)[k].id == id
    {
      InvalidateCache();
      removed := dao.Delete(id);
    }

    method MarkAsCompleted(id: int) returns (marked: bool)
      requires Valid()
      modifies this, dao
      ensures Valid()
      ensures !cacheValid && cachedTasks.None? && lastCacheTime == old(lastCacheTime)
      ensures dao.nextId == old(dao.nextId)
      ensures marked <==> exists k | 0 <= k < |old(dao.tasks)| :: old(dao.tasks)[k].id == id
      ensures marked ==> var k := IndexOfId(old(dao.tasks), id).value;
                         dao.tasks == old(dao.tasks)[k := old(dao.tasks)[k].(completed := true)]
      ensures !marked ==> dao.tasks == old(dao.tasks)
    {
      InvalidateCache();
      marked := dao.MarkAsCompleted(id);
    }

    /** findById: the store's answer, null (None) when no task has the id. */
    function FindById(id: int): (r: Option<Task>)
      reads this, dao
      ensures r.Some? ==> r.value.id == id && r.value in dao.tasks
      ensures r.None? <==> forall k | 0 <= k < |dao.tasks| :: dao.tasks[k].id != id
    {
      dao.FindById(id)
    }

    /** findByCompleted: the store's filter (which never throws, so the fallback is never taken). */
    function FindByCompleted(completed: bool): (r: seq<Task>)
      reads this, dao
      ensures r == Filter(dao.tasks, WithCompleted(completed))
      ensures forall t :: t in r <==> t in dao.tasks && t.completed == completed
    {
      dao.FindByCompleted(completed)
    }

    /** findTodayTasks: the store's answer, or an empty list when the store throws. */
    function FindTodayTasks(today: int): (r: seq<Task>)
      reads this, dao
      ensures AllDated(dao.tasks) ==> r == Filter(dao.tasks, DueOn(today))
      ensures AllDated(dao.tasks) ==> forall t :: t in r <==> t in dao.tasks && t.dueDate == Some(today)
      ensures !AllDated(dao.tasks) ==> r == []
    {
      match dao.FindTodayTasks(today)
      case Ok(ts) => ts
      case Err(_) => []
    }

    /** findOverdueTasks: the store's answer, or an empty list when the store throws. */
    function FindOverdueTasks(today: int): (r: seq<Task>)
      reads this, dao
      ensures AllDated(dao.tasks) ==> r == Filter(dao.tasks, OverdueOn(today))
      ensures AllDated(dao.tasks) ==> forall t :: t in r <==> t in dao.tasks && t.dueDate.Some? && t.dueDate.value < today && !t.completed
      ensures !AllDated(dao.tasks) ==> r == []
    {
      match dao.FindOverdueTasks(today)
      case Ok(ts) => ts
      case Err(_) => []
    }

    function GetCompletedTaskCount(): (n: int)
      reads this, dao
      ensures 0 <= n <= |dao.tasks|
      ensures n == |set k | 0 <= k < |dao.tasks| && dao.tasks[k].completed|
      ensures forall t | t in FindByCompleted(true) :: t.completed
    {
      var ts := dao.tasks;
      FilterCountsPositions(ts, WithCompleted(true));
      assert Positions(ts, WithCompleted(true)) == set k | 0 <= k < |ts| && ts[k].completed;
      |FindByCompleted(true)|
    }

    function GetPendingTaskCount(): (n: int)
      reads this, dao
      ensures 0 <= n <= |dao.tasks|
      ensures n == |set k | 0 <= k < |dao.tasks| && !dao.tasks[k].completed|
      ensures forall t | t in FindByCompleted(false) :: !t.completed
    {
      var ts := dao.tasks;
      FilterCountsPositions(ts, WithCompleted(false));
      assert Positions(ts, WithCompleted(false)) == set k | 0 <= k < |ts| && !ts[k].completed;
      |FindByCompleted(false)|
    }

    /** getTotalTaskCount: the store's count, which completed and pending tasks share out. */
    function GetTotalTaskCount(): (n: int)
      reads this, dao
      ensures n == GetCompletedTaskCount() + GetPendingTaskCount()
    {
      dao.GetTaskCount()
    }

    /** getOverdueTaskCount: overdue tasks are pending, so never more than the pending count. */
    function GetOverdueTaskCount(today: int): (n: int)
      reads this, dao
      ensures 0 <= n <= GetPendingTaskCount()
      ensures n == if AllDated(dao.tasks)
                   then |set k | 0 <= k < |dao.tasks| && dao.tasks[k].dueDate.Some?
                                 && dao.tasks[k].dueDate.value < today && !dao.tasks[k].completed|
                   else 0
    {
      var ts := dao.tasks;
      FilterCountMonotone(ts, OverdueOn(today), WithCompleted(false));
      FilterCountsPositions(ts, OverdueOn(today));
      assert Positions(ts, OverdueOn(today))
          == set k | 0 <= k < |ts| && ts[k].dueDate.Some? && ts[k].dueDate.value < today && !ts[k].completed;
      |FindOverdueTasks(today)|
    }

    /** getTodayTaskCount: never more than the total. */
    function GetTodayTaskCount(today: int): (n: int)
      reads this, dao
      ensures 0 <= n <= GetTotalTaskCount()
      ensures n == if AllDated(dao.tasks) then |set k | 0 <= k < |dao.tasks| && dao.tasks[k].dueDate == Some(today)| else 0
    {
      var ts := dao.tasks;
      FilterCountsPositions(ts, DueOn(today));
      assert Positions(ts, DueOn(today)) == set k | 0 <= k < |ts| && ts[k].dueDate == Some(today);
      |FindTodayTasks(today)|
    }

    /** findTasksByCategory: nothing for a null or blank category; with a valid cache, the cached
        tasks whose category matches ignoring case; otherwise the store's exact match. */
    function FindTasksByCategory(category: Option<string>): (r: seq<Task>)
      requires Valid()
      reads this, dao
      ensures category.None? || IsBlank(category.value) ==> r == []
      ensures category.Some? && !IsBlank(category.value) && cacheValid ==>
                r == Filter(dao.tasks, WithCategoryIgnoringCase(category.value))
      ensures category.Some? && !IsBlank(category.value) && !cacheValid ==>
                r == Filter(dao.tasks, WithCategory(category.value))
      ensures category.Some? && !IsBlank(category.value) && cacheValid ==>
                forall t :: t in r <==> t in dao.tasks && t.category.Some? && EqualsIgnoreCase(category.value, t.category.value)
      ensures category.Some? && !IsBlank(category.value) && !cacheValid ==>
                forall t :: t in r <==> t in dao.tasks && t.category == category
      // either way every task carrying exactly the category is found
      ensures category.Some? && !IsBlank(category.value) ==>
                forall t | t in dao.tasks && t.category == category :: t in r
    {
      if category.None? || Trim(category.value) == [] then []
      else if cacheValid && cachedTasks.Some? then
        FilterMembership(cachedTasks.value, WithCategoryIgnoringCase(category.value));
        Filter(cachedTasks.value, WithCategoryIgnoringCase(category.value))
      else dao.FindTasksByCategory(category)
    }

    /** findTasksByPriority: nothing for a null priority; otherwise the tasks with that priority
        in store order, taken from the cache when it is valid and through findAll otherwise. */
    method FindTasksByPriority(priority: Option<Priority>, now: int) returns (r: seq<Task>)
      requires Valid()
      modifies this
      ensures Valid()
      ensures priority.None? ==> r == []
      ensures priority.Some? ==> r == Filter(dao.tasks, WithPriority(priority.value))
      ensures priority.Some? ==> forall t :: t in r <==> t in dao.tasks && t.priority == priority.value
      ensures priority.None? || old(cacheValid) || old(CacheFresh(now)) ==> unchanged(this)
      ensures priority.Some? && !old(cacheValid) ==> cacheValid && cachedTasks == Some(dao.tasks) && lastCacheTime == now
    {
      if priority.None? {
        return [];
      }
      var p := priority.value;
      FilterMembership(dao.tasks, WithPriority(p));
      if cacheValid && cachedTasks.Some? {
        return Filter(cachedTasks.value, WithPriority(p));
      }
      var all := FindAll(now);
      r := Filter(all, WithPriority(p));
    }

    /** getCategoryStatistics: from a valid cache, every task counts; otherwise the tasks are
        loaded through findAll and only the first 1000 with a named category count. */
    method GetCategoryStatistics(now: int) returns (m: map<string, nat>)
      requires Valid()
      modifies this
      ensures Valid()
      ensures old(cacheValid) ==> m == CategoryStatistics(dao.tasks) && unchanged(this)
      ensures !old(cacheValid) ==> m == CountByCategory(Take(Filter(dao.tasks, WithNamedCategory()), StatisticsLimit))
      ensures !old(cacheValid) ==> cacheValid && cachedTasks == Some(dao.tasks) && lastCacheTime == now
      ensures |Filter(dao.tasks, WithNamedCategory())| <= StatisticsLimit ==> m == CategoryStatistics(dao.tasks)
    {
      if cacheValid && cachedTasks.Some? {
        return CategoryStatistics(cachedTasks.value);
      }
      var all := FindAll(now);
      m := CountByCategory(Take(Filter(all, WithNamedCategory()), StatisticsLimit));
    }

    /** findTasksByDateRange: the store's answer; when the store throws (some task has no due date),
        the tasks from findAll that have a due date within the range. Both give the same list. */
    method FindTasksByDateRange(start: int, end: int, now: int) returns (r: seq<Task>)
      requires Valid()
      modifies this
      ensures Valid()
      ensures r == Filter(dao.tasks, DueWithin(start, end))
      ensures forall t :: t in r <==> t in dao.tasks && t.dueDate.Some? && start <= t.dueDate.value <= end
      ensures AllDated(dao.tasks) || old(CacheFresh(now)) ==> unchanged(this)
      ensures !AllDated(dao.tasks) && !old(CacheFresh(now)) ==> cacheValid && cachedTasks == Some(dao.tasks) && lastCacheTime == now
    {
      FilterMembership(dao.tasks, DueWithin(start, end));
      match dao.FindTasksByDateRange(start, end)
      case Ok(ts) =>
        r := ts;
      case Err(_) =>
        var all := FindAll(now);
        FilterTwice(all, HasDueDate(), DueWithin(start, end), DueWithin(start, end));
        r := Filter(Filter(all, HasDueDate()), DueWithin(start, end));
    }
  }
}
