/** The logic inside TaskView.java: the view's own task cache, the five filters of the side
    panel, the statistics counts, the `isLoading` re-entrancy guard, and the cache edits that
    follow add, edit, delete and complete. Widgets, dialogs and alerts are not modelled: what
    the user typed or chose arrives as parameters, the table's contents are the field `shown`
    and the numbers on the statistics label are the field `statistics`. */
module View {
  import opened Results
  import opened Strings
  import opened Sequences
  import opened Tasks
  import Service

  /** The view's own `CACHE_TIMEOUT_MS`. */
  const CacheTimeoutMs: int := 30000

  /** The filter names the side panel's buttons pass. */
  predicate IsKnownFilter(filterType: string) {
    filterType in {"all", "today", "overdue", "completed", "pending"}
  }

  /** The condition the filter loop of applyFilter tests; None for "all" (no loop) and for
      names the switch has no case for. */
  function Selector(filterType: string, today: int): Option<Task -> bool> {
    if filterType == "today" then Some(PendingDueOn(today))
    else if filterType == "overdue" then Some(OverdueOn(today))
    else if filterType == "completed" then Some(WithCompleted(true))
    else if filterType == "pending" then Some(WithCompleted(false))
    else None
  }

  /** The list applyFilter puts in the table, in cache order. */
  function FilterTasks(filterType: string, cache: seq<Task>, today: int): (r: seq<Task>)
    ensures filterType == "all" ==> r == cache
    ensures filterType == "today" ==>
              forall t :: t in r <==> t in cache && t.dueDate == Some(today) && !t.completed
    ensures filterType == "overdue" ==>
              forall t :: t in r <==> t in cache && t.dueDate.Some? && t.dueDate.value < today && !t.completed
    ensures filterType == "completed" ==> forall t :: t in r <==> t in cache && t.completed
    ensures filterType == "pending" ==> forall t :: t in r <==> t in cache && !t.completed
    ensures !IsKnownFilter(filterType) ==> r == []
  {
    if filterType == "all" then cache
    else
      match Selector(filterType, today)
      case None => []
      case Some(keep) =>
        FilterMembership(cache, keep);
        Filter(cache, keep)
  }

  /** "completed" and "pending" split the cache between them; a task without a due date is in
      neither "today" nor "overdue", and the two never share a task. */
  lemma FiltersPartitionTheCache(cache: seq<Task>, today: int)
    ensures |FilterTasks("completed", cache, today)| + |FilterTasks("pending", cache, today)| == |cache|
    ensures forall t | t in FilterTasks("today", cache, today) || t in FilterTasks("overdue", cache, today) ::
              t.dueDate.Some? && !t.completed
    ensures forall t | t in FilterTasks("today", cache, today) :: t !in FilterTasks("overdue", cache, today)
  {
    FilterPartition(cache, WithCompleted(true), WithCompleted(false));
  }

  /** The filter switch of applyFilter: a copy for "all", an add-if loop for the other four,
      nothing for a name it has no case for. */
  method SelectTasks(filterType: string, cache: seq<Task>, today: int) returns (shown: seq<Task>)
    ensures shown == FilterTasks(filterType, cache, today)
  {
    if filterType == "all" {
      return cache;
    }
    match Selector(filterType, today)
    case None =>
      shown := [];
    case Some(keep) =>
      shown := [];
      var i := 0;
      while i < |cache|
        invariant 0 <= i <= |cache|
        invariant shown == Filter(cache[..i], keep)
      {
        FilterAppend(cache[..i], cache[i], keep);
        assert cache[..i + 1] == cache[..i] + [cache[i]];
        if keep(cache[i]) {
          shown := shown + [cache[i]];
        }
        i := i + 1;
      }
      assert cache[..i] == cache;
  }

  /** The numbers updateStatistics writes on the label (the completion percentage aside). */
  datatype Statistics = Statistics(total: int, completed: int, overdue: int, active: int)

  /** What the counting loop of updateStatistics computes: overdue counts only incomplete
      tasks past due, and active is total minus completed. */
  function StatisticsOf(cache: seq<Task>, today: int): (s: Statistics)
    ensures s.total == |cache|
    ensures s.completed + s.active == s.total
    ensures 0 <= s.overdue <= s.active
    ensures 0 <= s.completed && s.completed + s.overdue <= s.total
  {
    FilterPartition(cache, WithCompleted(true), WithCompleted(false));
    FilterCountMonotone(cache, OverdueOn(today), WithCompleted(false));
    var completed := |Filter(cache, WithCompleted(true))|;
    Statistics(|cache|, completed, |Filter(cache, OverdueOn(today))|, |cache| - completed)
  }

  /** The counting loop of updateStatistics. */
  method CountStatistics(cache: seq<Task>, today: int) returns (stats: Statistics)
    ensures stats == StatisticsOf(cache, today)
  {
    var completed, overdue := 0, 0;
    var i := 0;
    while i < |cache|
      invariant 0 <= i <= |cache|
      invariant completed == |Filter(cache[..i], WithCompleted(true))|
      invariant overdue == |Filter(cache[..i], OverdueOn(today))|
    {
      FilterAppend(cache[..i], cache[i], WithCompleted(true));
      FilterAppend(cache[..i], cache[i], OverdueOn(today));
      assert cache[..i + 1] == cache[..i] + [cache[i]];
      if cache[i].completed {
        completed := completed + 1;
      } else if cache[i].dueDate.Some? && cache[i].dueDate.value < today {
        overdue := overdue + 1;
      }
      i := i + 1;
    }
    assert cache[..i] == cache;
    stats := Statistics(|cache|, completed, overdue, |cache| - completed);
  }

  /** The add and edit dialogs refuse a blank title and a missing due date. */
  predicate FormAccepted(title: string, dueDate: Option<int>) {
    !IsBlank(title) && dueDate.Some?
  }

  /** The task the add dialog builds: trimmed fields, a category that is never null, not completed. */
  function NewTask(title: string, description: string, dueDate: Option<int>, priority: Priority, category: string): (t: Task)
    ensures t.id == 0 && !t.completed && t.dueDate == dueDate && t.priority == priority && t.category.Some?
    // a form the dialog accepts yields a task with a non-empty title
    ensures t.title == [] <==> IsBlank(title)
    ensures |t.title| <= |title| && |t.description| <= |description|
  {
    Task(0, Trim(title), Trim(description), dueDate, priority, Some(Trim(category)), false)
  }

  /** The selected task after the edit dialog's setters; its id is kept. */
  function EditedTask(selected: Task, title: string, description: string, dueDate: Option<int>,
                      category: string, priority: Priority, completed: bool): (t: Task)
    ensures SameTask(t, selected)
  {
    selected.(title := Trim(title), description := Trim(description), dueDate := dueDate,
              category := Some(Trim(category)), priority := priority, completed := completed)
  }

  /** The view and the service time their caches out on different sides of 30000 ms: for a
      view and a service cache loaded at the same moment, they agree on every age but exactly
      30000 ms, where the service reloads and the view keeps its cache. */
  lemma CacheTimeoutBoundariesDiffer(v: TaskView, svc: Service.TaskService, now: int)
    requires v.allTasksCache != [] && svc.cacheValid && svc.cachedTasks.Some?
    requires v.lastCacheUpdate == svc.lastCacheTime
    ensures now - v.lastCacheUpdate == CacheTimeoutMs ==> !v.NeedsReload(now) && !svc.CacheFresh(now)
    ensures now - v.lastCacheUpdate != CacheTimeoutMs ==> (v.NeedsReload(now) <==> !svc.CacheFresh(now))
  {
  }

  class TaskView {
    const service: Service.TaskService
    var allTasksCache: seq<Task>
    var lastCacheUpdate: int             // milliseconds
    var currentFilter: string
    var isLoading: bool
    var shown: seq<Task>                 // taskData, the rows of the table
    var statistics: Option<Statistics>   // what statsLabel shows; None until first computed

    ghost predicate Valid()
      reads this, service, service.dao
    {
      service.Valid()
    }

    /** applyFilter reloads the view's cache when it is empty or older than the timeout. */
    predicate NeedsReload(now: int)
      reads this
      // an empty cache is always reloaded; a non-empty one is kept up to and including 30000 ms
      ensures allTasksCache == [] ==> NeedsReload(now)
      ensures allTasksCache != [] ==> (NeedsReload(now) <==> now - lastCacheUpdate > CacheTimeoutMs)
    {
      allTasksCache == [] || now - lastCacheUpdate > CacheTimeoutMs
    }

    /** The constructor ends with refreshAllData, whose applyFilter call is a no-op: the cache
        is loaded and the statistics computed, but the table starts empty. */
    constructor (service: Service.TaskService, now: int, today: int)
      requires service.Valid()
      modifies service
      ensures Valid() && this.service == service
      ensures allTasksCache == service.dao.tasks && lastCacheUpdate == now
      ensures currentFilter == "all" && !isLoading
      ensures shown == []
      ensures statistics == if allTasksCache == [] then None else Some(StatisticsOf(allTasksCache, today))
    {
      this.service := service;
      allTasksCache := [];
      lastCacheUpdate := 0;
      currentFilter := "all";
      isLoading := false;
      shown := [];
      statistics := None;
      new;
      RefreshAllData(now, today);
    }

    method ApplyFilter(filterType: string, now: int, today: int)
      requires Valid()
      modifies this, service
      ensures Valid()
      ensures isLoading == old(isLoading) && statistics == old(statistics)
      ensures old(isLoading) ==> unchanged(this) && unchanged(service)
      ensures !old(isLoading) ==> currentFilter == filterType
      ensures !old(isLoading) && old(NeedsReload(now)) ==>
                allTasksCache == service.dao.tasks && lastCacheUpdate == now
      ensures !old(isLoading) && !old(NeedsReload(now)) ==>
                allTasksCache == old(allTasksCache) && lastCacheUpdate == old(lastCacheUpdate) && unchanged(service)
      ensures !old(isLoading) ==> shown == FilterTasks(filterType, allTasksCache, today)
    {
      if isLoading {
        return;
      }
      isLoading := true;
      currentFilter := filterType;
      if allTasksCache == [] || now - lastCacheUpdate > CacheTimeoutMs {
        allTasksCache := service.FindAll(now);
        lastCacheUpdate := now;
      }
      shown := SelectTasks(filterType, allTasksCache, today);
      isLoading := false;
    }

    method UpdateStatistics(today: int)
      modifies this`statistics
      ensures allTasksCache == [] ==> statistics == old(statistics)
      ensures allTasksCache != [] ==> statistics == Some(StatisticsOf(allTasksCache, today))
    {
      if allTasksCache == [] {
        return;
      }
      var stats := CountStatistics(allTasksCache, today);
      statistics := Some(stats);
    }

    /** refreshAllData: reloads the cache through the service and recomputes the statistics;
        the applyFilter it calls sees `isLoading` set and does nothing, so the table is untouched. */
    method RefreshAllData(now: int, today: int)
      requires Valid()
      modifies this, service
      ensures Valid()
      ensures isLoading == old(isLoading)
      ensures old(isLoading) ==> unchanged(this) && unchanged(service)
      ensures !old(isLoading) ==> allTasksCache == service.dao.tasks && lastCacheUpdate == now
      ensures !old(isLoading) ==>
                statistics == if allTasksCache == [] then old(statistics) else Some(StatisticsOf(allTasksCache, today))
      ensures shown == old(shown) && currentFilter == old(currentFilter)
    {
      if isLoading {
        return;
      }
      isLoading := true;
      allTasksCache := service.FindAll(now);
      lastCacheUpdate := now;
      ApplyFilter(currentFilter, now, today);
      UpdateStatistics(today);
      isLoading := false;
    }

    /** refreshFromDatabase: the same steps as refreshAllData (only the messages differ). */
    method RefreshFromDatabase(now: int, today: int)
      requires Valid()
      modifies this, service
      ensures Valid()
      ensures isLoading == old(isLoading)
      ensures old(isLoading) ==> unchanged(this) && unchanged(service)
      ensures !old(isLoading) ==> allTasksCache == service.dao.tasks && lastCacheUpdate == now
      ensures !old(isLoading) ==>
                statistics == if allTasksCache == [] then old(statistics) else Some(StatisticsOf(allTasksCache, today))
      ensures shown == old(shown) && currentFilter == old(currentFilter)
    {
      RefreshAllData(now, today);
    }

    /** A filter button: ignored while loading, otherwise records the filter, applies it and
        recomputes the statistics. */
    method SelectFilter(filterType: string, now: int, today: int)
      requires Valid()
      modifies this, service
      ensures Valid()
      ensures isLoading == old(isLoading)
      ensures old(isLoading) ==> unchanged(this) && unchanged(service)
      ensures !old(isLoading) ==> currentFilter == filterType
      ensures !old(isLoading) ==> shown == FilterTasks(filterType, allTasksCache, today)
      ensures !old(isLoading) && old(NeedsReload(now)) ==>
                allTasksCache == service.dao.tasks && lastCacheUpdate == now
      ensures !old(isLoading) && !old(NeedsReload(now)) ==>
                allTasksCache == old(allTasksCache) && lastCacheUpdate == old(lastCacheUpdate)
      ensures !old(isLoading) && allTasksCache != [] ==> statistics == Some(StatisticsOf(allTasksCache, today))
      ensures !old(isLoading) && allTasksCache == [] ==> statistics == old(statistics)
    {
      if !isLoading {
        currentFilter := filterType;
        ApplyFilter(filterType, now, today);
        UpdateStatistics(today);
      }
    }

    /** The cache loop of the edit and complete handlers: changes the first cached task with
        the id and stops. */
    method ChangeFirstCached(id: int, change: Task -> Task) returns (found: bool)
      modifies this`allTasksCache
      ensures found <==> IndexOfId(old(allTasksCache), id).Some?
      ensures found ==> var k := IndexOfId(old(allTasksCache), id).value;
                        allTasksCache == old(allTasksCache)[k := change(old(allTasksCache)[k])]
      ensures !found ==> allTasksCache == old(allTasksCache)
    {
      var i := 0;
      while i < |allTasksCache|
        invariant 0 <= i <= |allTasksCache|
        invariant allTasksCache == old(allTasksCache)
        invariant forall k | 0 <= k < i :: allTasksCache[k].id != id
      {
        if allTasksCache[i].id == id {
          assert IndexOfId(allTasksCache, id) == Some(i);
          allTasksCache := allTasksCache[i := change(allTasksCache[i])];
          return true;
        }
        i := i + 1;
      }
      return false;
    }

    /** The cache loop of the delete handler: scans from the end and removes the last cached
        task with the id. */
    method RemoveLastCached(id: int) returns (found: bool)
      modifies this`allTasksCache
      ensures found <==> LastIndexOfId(old(allTasksCache), id).Some?
      ensures found ==> allTasksCache == RemoveAt(old(allTasksCache), LastIndexOfId(old(allTasksCache), id).value)
      ensures !found ==> allTasksCache == old(allTasksCache)
    {
      var i := |allTasksCache|;
      while i > 0
        invariant 0 <= i <= |allTasksCache|
        invariant allTasksCache == old(allTasksCache)
        invariant forall k | i <= k < |allTasksCache| :: allTasksCache[k].id != id
      {
        i := i - 1;
        if allTasksCache[i].id == id {
          assert LastIndexOfId(allTasksCache, id) == Some(i);
          allTasksCache := RemoveAt(allTasksCache, i);
          return true;
        }
      }
      return false;
    }

    /** The add dialog: a valid form is saved through the service, the saved task (with its new
        id) is appended to the view's cache, the current filter is re-applied and the statistics
        recomputed. */
    method AddTask(title: string, description: string, dueDate: Option<int>, priority: Priority,
                   category: string, now: int, today: int) returns (saved: Option<Task>)
      requires Valid()
      modifies this, service, service.dao
      ensures Valid()
      ensures isLoading == old(isLoading)
      ensures old(isLoading) || !FormAccepted(title, dueDate) ==>
                saved.None? && unchanged(this) && unchanged(service) && unchanged(service.dao)
      ensures !old(isLoading) && FormAccepted(title, dueDate) ==>
                saved.Some?
                && saved.value == NewTask(title, description, dueDate, priority, category).(id := old(service.dao.nextId))
                && service.dao.tasks == old(service.dao.tasks) + [saved.value]
                && allTasksCache == old(allTasksCache) + [saved.value]
                && lastCacheUpdate == now
                && shown == FilterTasks(currentFilter, allTasksCache, today)
                && statistics == Some(StatisticsOf(allTasksCache, today))
      ensures currentFilter == old(currentFilter)
    {
      if isLoading {
        return None;
      }
      if Trim(title) == [] || dueDate.None? {
        return None;
      }
      var task := NewTask(title, description, dueDate, priority, category);
      var id := service.Save(task);
      var stored := task.(id := id);
      allTasksCache := allTasksCache + [stored];
      lastCacheUpdate := now;
      ApplyFilter(currentFilter, now, today);
      UpdateStatistics(today);
      return Some(stored);
    }

    /** The edit dialog: a valid form updates the selected task through the service; on success
        the first cached task with its id is replaced, the filter re-applied and the statistics
        recomputed. */
    method EditSelectedTask(selected: Option<Task>, title: string, description: string,
                            dueDate: Option<int>, category: string, priority: Priority,
                            completed: bool, now: int, today: int) returns (updated: bool)
      requires Valid()
      modifies this, service, service.dao
      ensures Valid()
      ensures isLoading == old(isLoading)
      ensures old(isLoading) || selected.None? || !FormAccepted(title, dueDate) ==>
                !updated && unchanged(this) && unchanged(service) && unchanged(service.dao)
      ensures updated <==> !old(isLoading) && selected.Some? && FormAccepted(title, dueDate)
                           && exists k | 0 <= k < |old(service.dao.tasks)| :: old(service.dao.tasks)[k].id == selected.value.id
      ensures updated ==>
                var edited := EditedTask(selected.value, title, description, dueDate, category, priority, completed);
                var k := IndexOfId(old(allTasksCache), selected.value.id);
                (k.None? ==> allTasksCache == if old(allTasksCache) == [] then service.dao.tasks else old(allTasksCache))
                && (k.Some? ==> allTasksCache == old(allTasksCache)[k.value := edited])
                && lastCacheUpdate == now
                && shown == FilterTasks(currentFilter, allTasksCache, today)
                && statistics == Some(StatisticsOf(allTasksCache, today))
      ensures updated ==>
                var edited := EditedTask(selected.value, title, description, dueDate, category, priority, completed);
                service.dao.tasks == old(service.dao.tasks)[IndexOfId(old(service.dao.tasks), edited.id).value := edited]
      ensures service.dao.nextId == old(service.dao.nextId)
      ensures currentFilter == old(currentFilter)
    {
      if isLoading || selected.None? {
        return false;
      }
      if Trim(title) == [] || dueDate.None? {
        return false;
      }
      var edited := EditedTask(selected.value, title, description, dueDate, category, priority, completed);
      updated := CommitEdit(edited, now, today);
    }

    /** The edit handler once the form is accepted: the service update, then the cache. */
    method CommitEdit(edited: Task, now: int, today: int) returns (updated: bool)
      requires Valid() && !isLoading
      modifies this, service, service.dao
      ensures Valid() && !isLoading
      ensures updated <==> exists k | 0 <= k < |old(service.dao.tasks)| :: old(service.dao.tasks)[k].id == edited.id
      ensures !updated ==> service.dao.tasks == old(service.dao.tasks) && unchanged(this)
      ensures updated ==>
                service.dao.tasks == old(service.dao.tasks)[IndexOfId(old(service.dao.tasks), edited.id).value := edited]
      ensures updated ==>
                var k := IndexOfId(old(allTasksCache), edited.id);
                (k.None? ==> allTasksCache == if old(allTasksCache) == [] then service.dao.tasks else old(allTasksCache))
                && (k.Some? ==> allTasksCache == old(allTasksCache)[k.value := edited])
                && lastCacheUpdate == now
                && shown == FilterTasks(currentFilter, allTasksCache, today)
                && statistics == Some(StatisticsOf(allTasksCache, today))
      ensures service.dao.nextId == old(service.dao.nextId)
      ensures currentFilter == old(currentFilter)
    {
      updated := service.Update(edited);
      if updated {
        SyncCacheAfterEdit(edited, now, today);
      }
    }

    /** The edit handler once the store has accepted the edited task. */
    method SyncCacheAfterEdit(edited: Task, now: int, today: int)
      requires Valid() && !isLoading
      modifies this, service
      ensures Valid() && !isLoading && currentFilter == old(currentFilter)
      ensures var k := IndexOfId(old(allTasksCache), edited.id);
              (k.None? ==> allTasksCache == if old(allTasksCache) == [] then service.dao.tasks else old(allTasksCache))
              && (k.Some? ==> allTasksCache == old(allTasksCache)[k.value := edited])
      ensures lastCacheUpdate == now
      ensures shown == FilterTasks(currentFilter, allTasksCache, today)
      ensures statistics == if allTasksCache == [] then old(statistics) else Some(StatisticsOf(allTasksCache, today))
      ensures service.dao.tasks == old(service.dao.tasks) && service.dao.nextId == old(service.dao.nextId)
    {
      var _ := ChangeFirstCached(edited.id, (_: Task) => edited);
      lastCacheUpdate := now;
      ApplyFilter(currentFilter, now, today);
      UpdateStatistics(today);
    }

    /** deleteSelectedTask: after a confirmed, successful delete the last cached task with the
        id is removed (the cache is reloaded when there is none), the filter re-applied and the
        statistics recomputed. */
    method DeleteSelectedTask(selected: Option<Task>, confirmed: bool, now: int, today: int) returns (deleted: bool)
      requires Valid()
      modifies this, service, service.dao
      ensures Valid()
      ensures isLoading == old(isLoading)
      ensures old(isLoading) || selected.None? || !confirmed ==>
                !deleted && unchanged(this) && unchanged(service) && unchanged(service.dao)
      ensures deleted <==> !old(isLoading) && selected.Some? && confirmed
                           && exists k | 0 <= k < |old(service.dao.tasks)| :: old(service.dao.tasks)[k].id == selected.value.id
      ensures deleted ==>
                var k := LastIndexOfId(old(allTasksCache), selected.value.id);
                var kept := if k.Some? then RemoveAt(old(allTasksCache), k.value) else [];
                allTasksCache == (if kept == [] then service.dao.tasks else kept)
                && lastCacheUpdate == now
                && shown == FilterTasks(currentFilter, allTasksCache, today)
                && statistics == if allTasksCache == [] then old(statistics) else Some(StatisticsOf(allTasksCache, today))
      ensures deleted ==> service.dao.tasks == Filter(old(service.dao.tasks), WithoutId(selected.value.id))
      ensures service.dao.nextId == old(service.dao.nextId)
      ensures currentFilter == old(currentFilter)
    {
      if isLoading || selected.None? || !confirmed {
        return false;
      }
      var id := selected.value.id;
      deleted := service.Delete(id);
      if deleted {
        SyncCacheAfterDelete(id, now, today);
      }
    }

    /** The delete handler once the store has removed the task. */
    method SyncCacheAfterDelete(id: int, now: int, today: int)
      requires Valid() && !isLoading
      modifies this, service
      ensures Valid() && !isLoading && currentFilter == old(currentFilter)
      ensures var k := LastIndexOfId(old(allTasksCache), id);
              var kept := if k.Some? then RemoveAt(old(allTasksCache), k.value) else [];
              allTasksCache == (if kept == [] then service.dao.tasks else kept)
      ensures lastCacheUpdate == now
      ensures shown == FilterTasks(currentFilter, allTasksCache, today)
      ensures statistics == if allTasksCache == [] then old(statistics) else Some(StatisticsOf(allTasksCache, today))
      ensures service.dao.tasks == old(service.dao.tasks) && service.dao.nextId == old(service.dao.nextId)
    {
      var found := RemoveLastCached(id);
      if !found {
        allTasksCache := service.FindAll(now);
      }
      lastCacheUpdate := now;
      ApplyFilter(currentFilter, now, today);
      UpdateStatistics(today);
    }

    /** markAsCompleted: for a selected task not yet completed, marks it through the service; on
        success the first cached task with its id is marked too (the cache is reloaded when there
        is none), the filter re-applied and the statistics recomputed. */
    method MarkSelectedCompleted(selected: Option<Task>, now: int, today: int) returns (marked: bool)
      requires Valid()
      modifies this, service, service.dao
      ensures Valid()
      ensures isLoading == old(isLoading)
      ensures old(isLoading) || selected.None? || selected.value.completed ==>
                !marked && unchanged(this) && unchanged(service) && unchanged(service.dao)
      ensures marked <==> !old(isLoading) && selected.Some? && !selected.value.completed
                          && exists k | 0 <= k < |old(service.dao.tasks)| :: old(service.dao.tasks)[k].id == selected.value.id
      ensures marked ==>
                var k := IndexOfId(old(allTasksCache), selected.value.id);
                (k.Some? ==> allTasksCache == old(allTasksCache)[k.value := old(allTasksCache)[k.value].(completed := true)])
                && (k.None? ==> allTasksCache == service.dao.tasks)
                && lastCacheUpdate == now
                && shown == FilterTasks(currentFilter, allTasksCache, today)
                && statistics == Some(StatisticsOf(allTasksCache, today))
      ensures marked ==> var k := IndexOfId(old(service.dao.tasks), selected.value.id).value;
                         service.dao.tasks == old(service.dao.tasks)[k := old(service.dao.tasks)[k].(completed := true)]
      ensures service.dao.nextId == old(service.dao.nextId)
      ensures currentFilter == old(currentFilter)
    {
      if isLoading || selected.None? || selected.value.completed {
        return false;
      }
      var id := selected.value.id;
      marked := service.MarkAsCompleted(id);
      if marked {
        SyncCacheAfterMark(id, now, today);
      }
    }

    /** The complete handler once the store has marked the task. */
    method SyncCacheAfterMark(id: int, now: int, today: int)
      requires Valid() && !isLoading
      modifies this, service
      ensures Valid() && !isLoading && currentFilter == old(currentFilter)
      ensures var k := IndexOfId(old(allTasksCache), id);
              (k.Some? ==> allTasksCache == old(allTasksCache)[k.value := old(allTasksCache)[k.value].(completed := true)])
              && (k.None? ==> allTasksCache == service.dao.tasks)
      ensures lastCacheUpdate == now
      ensures shown == FilterTasks(currentFilter, allTasksCache, today)
      ensures statistics == if allTasksCache == [] then old(statistics) else Some(StatisticsOf(allTasksCache, today))
      ensures service.dao.tasks == old(service.dao.tasks) && service.dao.nextId == old(service.dao.nextId)
    {
      var found := ChangeFirstCached(id, (t: Task) => t.(completed := true));
      if !found {
        allTasksCache := service.FindAll(now);
      }
      lastCacheUpdate := now;
      ApplyFilter(currentFilter, now, today);
      UpdateStatistics(today);
    }
  }
}
