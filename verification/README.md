# Task manager core: connection pool, task service, in-memory store and view logic

This project models, in Dafny, the core of a small JavaFX task manager backed by SQLite:

- **The connection pool** (`ConnectionPool`): a bounded idle queue of at most three
  connections (`maxPoolSize`) and a counter `createdConnections`. `getConnection` polls the
  queue, validates what it got, creates a new connection while the counter is below
  capacity, polls once more and otherwise fails. `releaseConnection` resets a connection and
  offers it back, or closes it and counts down. `closeAllConnections` closes the idle
  connections, clears the queue and zeroes the counter. Connections are abstract values.
  Everything the pool learns from JDBC or from the thread system during a call is an oracle
  argument: whether a timed poll is interrupted, whether a connection is valid, whether
  creating one succeeds, and whether resetting or closing one throws. The pool is given
  twice. The first form is as pure state-transition functions (`Pool.Acquire`,
  `Pool.Release`, `Pool.Teardown`) with lemmas over whole runs of calls. The second is a
  class `Pool.ConnectionPool` whose methods update its fields in place and are proved equal
  to those functions.
- **The in-memory task store** (`InMemoryTaskDao`, the test double of the service tests): a
  list of tasks and an id allocator that starts at 1. It offers save, update, delete, find by
  id, the finders, mark-as-completed and the count.
- **The task service** (`TaskService`): a read cache stamped with the time it was loaded and
  dropped by every mutation, plus the filters, counts and per-category statistics built on the
  store. The model runs it over the in-memory store.
- **The view's logic** (`TaskView`): the view keeps its own task cache and applies five named
  filters. It computes the statistics counts and has an `isLoading` re-entrancy guard. The
  add, edit, delete and complete handlers patch the cache after their service calls.

Tasks are values (`Tasks.Task`). Two tasks are the same task when their ids agree. Dates are
day numbers and clock readings are milliseconds. Both are passed in as integers: `today` and
`now`, one reading per operation.

Some behaviour of the code as written is proved and stated plainly in the model:

- A connection that fails validation is dropped from the queue without counting down.
  `Pool.DeadIdleConnectionsLeakCapacity` shows a full pool whose idle connections are dead:
  it times out, and afterwards the two dead connections it dropped still count as in use.
- `releaseConnection` does not check where a connection came from. Releasing connections the
  pool never handed out drives the used count, and then the counter itself, below zero
  (`Pool.UnmatchedReleasesDriveCountersNegative`). The bound `createdConnections <= 3` does
  hold in every reachable state (`Pool.ReachableStatesAreBounded`). `createdConnections >= 0`
  does not.
- `TaskService.findTasksByCategory` ignores case when the cache is valid. Otherwise it defers
  to the store, which matches exactly, so the same query can answer differently
  (`Service.CategoryLookupDependsOnCache`).
- The in-memory store's date finders dereference the due date of every stored task. One task
  without a due date makes them throw. The service then answers "today" and "overdue" with an
  empty list, and "date range" through its fallback filter. That fallback gives the same list
  as the store would (`Service.TaskService.FindTasksByDateRange`).
- `refreshAllData` sets `isLoading` before it calls `applyFilter`, so the filter never runs
  there. The view's constructor therefore loads the cache and the statistics but leaves the
  table empty (`View.TaskView.constructor`).
- The view reloads its cache when it is older than 30000 ms (`>`). The service serves its
  cache only while it is younger than 30000 ms (`<`). The two boundaries differ at exactly
  30000 ms: there the service reloads while the view keeps its cache
  (`View.CacheTimeoutBoundariesDiffer`).

## Model

| member | source | states |
|---|---|---|
| Strings.Trim | untitled26/src/main/java/org/example/TaskView.java:509 | `trim()` returns the slice of the input between a prefix and a suffix of characters at or below U+0020; it is empty exactly when the input is blank, which is the emptiness test on the title, and otherwise starts and ends above U+0020 |
| Strings.TrimFrom | untitled26/src/main/java/org/example/TaskService.java:111 | the front scan of `trim()` stops at the first character above U+0020, or at the end, having passed only characters at or below it |
| Strings.TrimTo | untitled26/src/main/java/org/example/TaskService.java:111 | the back scan of `trim()` stops after the last character above U+0020 (never before the front scan's stop), having passed only characters at or below it |
| Strings.TrimIsIdempotent | untitled26/src/main/java/org/example/TaskService.java:173 | trimming a string the dialog already trimmed changes nothing |
| Strings.ToLowerAscii | untitled26/src/main/java/org/example/TaskService.java:117 | case folding never yields an upper-case letter, yields a lower-case letter exactly for letters, changes only upper-case letters, and maps each letter to its own lower case |
| Strings.EqualsIgnoreCaseIsEquivalence | untitled26/src/main/java/org/example/TaskService.java:117 | `equalsIgnoreCase` holds between equal strings, is symmetric and transitive, and between strings without upper-case letters it is plain equality |
| Sequences.Filter | untitled26/src/test/java/org/example/TaskServiceTest.java:297-302 | a stream filter returns only elements of the input that satisfy the predicate, never more than the input |
| Sequences.FilterConcat | untitled26/src/test/java/org/example/TaskServiceTest.java:297-302 | filtering distributes over concatenation, so the kept elements stay in input order |
| Sequences.FilterAppend | untitled26/src/main/java/org/example/TaskView.java:389-395 | the add-if loop step: one more element is kept or dropped on its own |
| Sequences.FilterMembership | untitled26/src/test/java/org/example/TaskServiceTest.java:297-302 | an element is in the result exactly when it is in the input and satisfies the predicate |
| Sequences.FilterNone | untitled26/src/main/java/org/example/TaskService.java:172-173 | when nothing satisfies the predicate, the result is empty |
| Sequences.FilterKeepsAll | untitled26/src/test/java/org/example/TaskServiceTest.java:280-283 | nothing is removed exactly when every element satisfies the predicate, and then the list is unchanged |
| Sequences.FilterPartition | untitled26/src/main/java/org/example/TaskService.java:154-160 | a predicate and its negation split the list: the two counts add up to its length |
| Sequences.FilterCountMonotone | untitled26/src/main/java/org/example/TaskService.java:162-164 | a weaker predicate keeps at least as many elements |
| Sequences.FilterCountsPositions | untitled26/src/main/java/org/example/TaskService.java:154-160 | the length of a filtered list is the number of positions whose element satisfies the predicate |
| Sequences.FilterTwice | untitled26/src/main/java/org/example/TaskService.java:201-205 | two chained filters equal one filter by the conjunction |
| Sequences.FilterRemovesOne | untitled26/src/test/java/org/example/TaskServiceTest.java:280-283 | when only the element at k fails the predicate, filtering removes exactly that element |
| Sequences.Take | untitled26/src/main/java/org/example/TaskService.java:182 | `limit(n)` is the prefix of the list of length n, or the whole list when it has at most n elements |
| Tasks.IndexOfId | untitled26/src/test/java/org/example/TaskServiceTest.java:270-275 | the first position holding the id; None exactly when no task has it |
| Tasks.LastIndexOfId | untitled26/src/main/java/org/example/TaskView.java:679-687 | the last position holding the id; None exactly when no task has it |
| Sequences.RemoveAt | untitled26/src/main/java/org/example/TaskView.java:683 | `remove(i)` shortens the list by one and shifts the elements after i down |
| Pool.Acquire | untitled26/src/main/java/org/example/ConnectionPool.java:54-79 | getConnection moves the counter only by creating a connection, by one and only below capacity; the queue loses at most two entries, from its head; a reused connection came from the queue and passed validation; a failure never moves the counter |
| Pool.Discard | untitled26/src/main/java/org/example/ConnectionPool.java:118-119 | closing a released connection records it closed; the getters then report one connection fewer in use and the same number available |
| Pool.Release | untitled26/src/main/java/org/example/ConnectionPool.java:107-130 | null is a no-op; with room and a clean reset the connection is appended and the counter kept; otherwise it is closed and counted down, unless every close attempt threw; the queue never passes capacity |
| Pool.CloseAfterFailure | untitled26/src/main/java/org/example/ConnectionPool.java:122-127 | the catch block's second close changes the pool exactly when it works, and then the connection is closed and no longer counted as in use |
| Pool.Teardown | untitled26/src/main/java/org/example/ConnectionPool.java:132-140 | closeAllConnections empties the queue and zeroes the counter (available and used both 0); the closed log gains exactly the idle connections whose close works, and nothing that was not idle |
| Pool.StepKeepsBounds | untitled26/src/main/java/org/example/ConnectionPool.java:61-63 | every public call keeps the counter and the queue within maxPoolSize |
| Pool.RunKeepsBounds | untitled26/src/main/java/org/example/ConnectionPool.java:16-22 | the bounds hold after any sequence of calls |
| Pool.ReachableStatesAreBounded | untitled26/src/main/java/org/example/ConnectionPool.java:17-22 | from a fresh pool, no sequence of calls pushes the counter or the queue past 3 |
| Pool.AcquireReusesLiveIdle | untitled26/src/main/java/org/example/ConnectionPool.java:56-59 | a valid connection from the first poll is returned and the counter is unchanged |
| Pool.AcquireCreatesBelowCapacity | untitled26/src/main/java/org/example/ConnectionPool.java:61-66 | below capacity, with no valid idle connection, a created connection is returned and counted once; a failed creation counts nothing |
| Pool.AcquireDropsDeadIdle | untitled26/src/main/java/org/example/ConnectionPool.java:56-57 | a dead head is dropped from the queue without counting down; a reused connection is then the second entry |
| Pool.AcquireTimesOutAtCapacity | untitled26/src/main/java/org/example/ConnectionPool.java:68-73 | at capacity, when neither poll yields a valid connection, the call times out and only the queue shrinks |
| Pool.DeadIdleConnectionsLeakCapacity | untitled26/src/main/java/org/example/ConnectionPool.java:56-73 | a full pool of dead idle connections times out and keeps the counter at 3, so the dropped connections stay counted as used |
| Pool.AcquireInterruptedFirst | untitled26/src/main/java/org/example/ConnectionPool.java:75-78 | an interrupted first poll fails the call and changes nothing |
| Pool.ReleaseWithRoomMovesOneToAvailable | untitled26/src/test/java/org/example/ConnectionPoolTest.java:56-70 | releasing into a queue with room raises available by one and lowers used by one |
| Pool.CreateThenReleaseRoundTrip | untitled26/src/main/java/org/example/ConnectionPool.java:61-66 | a newly created connection, given back, is the one idle connection and the used count is back where it was |
| Pool.UnmatchedReleasesDriveCountersNegative | untitled26/src/main/java/org/example/ConnectionPool.java:107-121 | releasing connections the pool never handed out makes used -3, and once the queue is full the counter -1 |
| Pool.AcquireKeepsIdleWithinCount | untitled26/src/main/java/org/example/ConnectionPool.java:54-79 | getConnection keeps 0 <= available <= created |
| Pool.ReleaseKeepsIdleWithinCount | untitled26/src/main/java/org/example/ConnectionPool.java:107-130 | a release keeps available <= created when something is checked out |
| Pool.ConnectionPool.constructor | untitled26/src/main/java/org/example/ConnectionPool.java:19-26 | a new pool is empty, counts nothing and is within its bounds |
| Pool.ConnectionPool.Poll | untitled26/src/main/java/org/example/ConnectionPool.java:56 | poll returns the head of a non-empty queue and removes it, or nothing |
| Pool.ConnectionPool.Offer | untitled26/src/main/java/org/example/ConnectionPool.java:117 | offer appends exactly when the queue is below capacity and reports whether it did |
| Pool.ConnectionPool.GetConnection | untitled26/src/main/java/org/example/ConnectionPool.java:54-79 | the in-place method yields the result and the new state of Pool.Acquire and keeps the bounds |
| Pool.ConnectionPool.ReleaseConnection | untitled26/src/main/java/org/example/ConnectionPool.java:107-130 | the in-place method yields the new state of Pool.Release and keeps the bounds |
| Pool.ConnectionPool.CloseConnection | untitled26/src/main/java/org/example/ConnectionPool.java:142-152 | closes a connection unless it is closed already or closing throws; the queue and the counter are untouched |
| Pool.ConnectionPool.CloseAllConnections | untitled26/src/main/java/org/example/ConnectionPool.java:132-140 | the loop over the queue closes, in queue order, the idle connections that close cleanly, then clears the queue and zeroes the counter |
| Pool.ConnectionPool.GetAvailableConnectionsCount | untitled26/src/main/java/org/example/ConnectionPool.java:154-156 | the available count is the queue length |
| Pool.ConnectionPool.GetUsedConnectionsCount | untitled26/src/main/java/org/example/ConnectionPool.java:158-160 | used plus available is always the counter |
| TaskStore.FilterKeepsIdsIncreasing | untitled26/src/test/java/org/example/TaskServiceTest.java:280-283 | removing tasks keeps the stored ids strictly increasing |
| TaskStore.FilterKeepsIdsIssued | untitled26/src/test/java/org/example/TaskServiceTest.java:280-283 | removing tasks keeps every stored id among the ids handed out |
| TaskStore.SavedTaskIsFirstWithItsId | untitled26/src/test/java/org/example/TaskServiceTest.java:259-267 | a task saved under the next id is the first, and only, task with that id |
| TaskStore.DeleteRemovesOnlyTheFoundTask | untitled26/src/test/java/org/example/TaskServiceTest.java:280-283 | with distinct ids, delete removes exactly the task findById finds and keeps the rest in order |
| TaskStore.CompletingOneTaskCountsOnce | untitled26/src/test/java/org/example/TaskServiceTest.java:325-331 | marking a task completed adds one to the completed count, or nothing when it was completed already |
| TaskStore.InMemoryTaskDao.constructor | untitled26/src/test/java/org/example/TaskServiceTest.java:256-257 | a new store is empty and its allocator stands at 1 |
| TaskStore.InMemoryTaskDao.FindById | untitled26/src/test/java/org/example/TaskServiceTest.java:285-290 | the first stored task with the id, or nothing exactly when no task has it |
| TaskStore.InMemoryTaskDao.Save | untitled26/src/test/java/org/example/TaskServiceTest.java:259-267 | returns the allocator's id (positive), advances it, appends the task under that id, which findById then returns; ids stay distinct and increasing |
| TaskStore.InMemoryTaskDao.Update | untitled26/src/test/java/org/example/TaskServiceTest.java:269-278 | true exactly when some task has the id, and then only the first such task is replaced; otherwise the list is unchanged |
| TaskStore.InMemoryTaskDao.Delete | untitled26/src/test/java/org/example/TaskServiceTest.java:280-283 | removes every task with the id, keeps the rest in order, reports whether one existed; the id is then not found |
| TaskStore.InMemoryTaskDao.MarkAsCompleted | untitled26/src/test/java/org/example/TaskServiceTest.java:325-331 | true exactly when some task has the id; only the first such task's flag is set and the length is unchanged |
| TaskStore.InMemoryTaskDao.FindByCompleted | untitled26/src/test/java/org/example/TaskServiceTest.java:297-302 | the stored tasks whose flag matches, in store order (a `Filter` of the list), and no others |
| TaskStore.InMemoryTaskDao.GetTaskCount | untitled26/src/test/java/org/example/TaskServiceTest.java:347-350 | the count is the completed count plus the pending count |
| TaskStore.InMemoryTaskDao.FindTodayTasks | untitled26/src/test/java/org/example/TaskServiceTest.java:309-315 | throws (an error result) exactly when some task has no due date; otherwise the stored tasks due today, in store order, and no others |
| TaskStore.InMemoryTaskDao.FindOverdueTasks | untitled26/src/test/java/org/example/TaskServiceTest.java:317-323 | throws exactly when some task has no due date; otherwise the incomplete stored tasks due before today, in store order, and no others |
| TaskStore.InMemoryTaskDao.FindTasksByDateRange | untitled26/src/test/java/org/example/TaskServiceTest.java:340-345 | throws exactly when some task has no due date; otherwise the stored tasks due between the two days inclusive, in store order, and no others |
| TaskStore.InMemoryTaskDao.FindTasksByCategory | untitled26/src/test/java/org/example/TaskServiceTest.java:333-338 | a null category finds nothing; otherwise the stored tasks whose category equals it, in store order, and no others |
| Service.CountByCategory | untitled26/src/main/java/org/example/TaskService.java:174-177 | grouping by category produces only positive counts |
| Service.CountByCategoryCounts | untitled26/src/main/java/org/example/TaskService.java:174-177 | a category is a key exactly when some task carries it, with the number of tasks carrying it as value |
| Service.CountByCategoryKeys | untitled26/src/main/java/org/example/TaskService.java:174-177 | every key of the grouping is the category of some task, and no count exceeds the number of tasks |
| Service.CategoryStatistics | untitled26/src/main/java/org/example/TaskService.java:172-177 | the statistics map has only non-blank keys, each with a positive count no larger than the number of tasks |
| Service.CategoryStatisticsCounts | untitled26/src/main/java/org/example/TaskService.java:170-187 | null and blank categories are never keys; any other category is a key exactly when tasks carry it, mapped to how many do |
| Service.CategoryLookupDependsOnCache | untitled26/src/main/java/org/example/TaskService.java:115-122 | the cached lookup matches "Work" for "work" and the store's lookup does not |
| Service.TaskService.constructor | untitled26/src/main/java/org/example/TaskService.java:17-19 | a new service has no cache |
| Service.TaskService.InvalidateCache | untitled26/src/main/java/org/example/TaskService.java:189-193 | marks the cache invalid and drops it, keeping the time stamp |
| Service.TaskService.CacheFresh | untitled26/src/main/java/org/example/TaskService.java:43-44 | findAll serves only a cache that is there, and never once it is 30000 ms old or older |
| Service.TaskService.FindAll | untitled26/src/main/java/org/example/TaskService.java:40-73 | always the store's tasks; served from a valid cache younger than 30000 ms without change, otherwise loaded and cached with the current time; fresh afterwards |
| Service.TaskService.Save | untitled26/src/main/java/org/example/TaskService.java:21-24 | drops the cache, then saves through the store and returns its id |
| Service.TaskService.Update | untitled26/src/main/java/org/example/TaskService.java:26-29 | drops the cache, then updates through the store and returns its answer |
| Service.TaskService.Delete | untitled26/src/main/java/org/example/TaskService.java:31-34 | drops the cache, then deletes through the store and returns its answer |
| Service.TaskService.MarkAsCompleted | untitled26/src/main/java/org/example/TaskService.java:105-108 | drops the cache, then marks through the store and returns its answer |
| Service.TaskService.FindById | untitled26/src/main/java/org/example/TaskService.java:36-38 | a stored task with the id, or null exactly when there is none |
| Service.TaskService.FindByCompleted | untitled26/src/main/java/org/example/TaskService.java:75-85 | the store's tasks whose flag matches, in store order, and no others |
| Service.TaskService.FindTodayTasks | untitled26/src/main/java/org/example/TaskService.java:87-94 | the store's tasks due today, in store order; an empty list when the store throws |
| Service.TaskService.FindOverdueTasks | untitled26/src/main/java/org/example/TaskService.java:96-103 | the store's incomplete tasks due before today, in store order; an empty list when the store throws |
| Service.TaskService.GetCompletedTaskCount | untitled26/src/main/java/org/example/TaskService.java:154-156 | the number of positions in the store holding a completed task, hence at most the total |
| Service.TaskService.GetPendingTaskCount | untitled26/src/main/java/org/example/TaskService.java:158-160 | the number of positions in the store holding an incomplete task, hence at most the total |
| Service.TaskService.GetTotalTaskCount | untitled26/src/main/java/org/example/TaskService.java:145-152 | total = completed + pending |
| Service.TaskService.GetOverdueTaskCount | untitled26/src/main/java/org/example/TaskService.java:162-164 | the number of store positions holding an incomplete task due before today (0 when the store throws), hence never more than the pending count |
| Service.TaskService.GetTodayTaskCount | untitled26/src/main/java/org/example/TaskService.java:166-168 | the number of store positions holding a task due today (0 when the store throws), hence never more than the total |
| Service.TaskService.FindTasksByCategory | untitled26/src/main/java/org/example/TaskService.java:110-127 | null or blank: empty; valid cache: the store's tasks, in order, whose category matches ignoring case; otherwise the store's tasks, in order, whose category is equal; exact matches are found either way |
| Service.TaskService.FindTasksByPriority | untitled26/src/main/java/org/example/TaskService.java:129-143 | null: empty; otherwise exactly the tasks with that priority in store order, from the cache or through findAll |
| Service.TaskService.GetCategoryStatistics | untitled26/src/main/java/org/example/TaskService.java:170-187 | from a valid cache, the statistics of all tasks; otherwise of the first 1000 named-category tasks after findAll; the same whenever at most 1000 tasks have a named category |
| Service.TaskService.FindTasksByDateRange | untitled26/src/main/java/org/example/TaskService.java:196-207 | exactly the tasks with a due date within the range, in store order, whether the store answers or the fallback filter does |
| View.FilterTasks | untitled26/src/main/java/org/example/TaskView.java:364-404 | "all": the whole cache; "today": incomplete tasks due today; "overdue": incomplete tasks due before today; "completed"/"pending": by flag; any other name: nothing |
| View.FiltersPartitionTheCache | untitled26/src/main/java/org/example/TaskView.java:364-404 | "completed" and "pending" split the cache; "today" and "overdue" hold only dated incomplete tasks and share none |
| View.SelectTasks | untitled26/src/main/java/org/example/TaskView.java:364-404 | the switch with its add-if loops computes View.FilterTasks |
| View.StatisticsOf | untitled26/src/main/java/org/example/TaskView.java:430-444 | completed + active = total, overdue <= active, completed + overdue <= total |
| View.CountStatistics | untitled26/src/main/java/org/example/TaskView.java:430-444 | the counting loop computes View.StatisticsOf |
| View.EditedTask | untitled26/src/main/java/org/example/TaskView.java:616-621 | the edited task keeps the selected task's id |
| View.NewTask | untitled26/src/main/java/org/example/TaskView.java:519-525 | the add dialog's task is unsaved (id 0), not completed, always has a category, keeps the chosen date and priority, and has an empty title exactly when the typed title is blank |
| View.CacheTimeoutBoundariesDiffer | untitled26/src/main/java/org/example/TaskView.java:355-356 | for caches loaded at the same moment, the view reloads exactly when the service does, except at exactly 30000 ms, where the service reloads and the view does not |
| View.TaskView.constructor | untitled26/src/main/java/org/example/TaskView.java:34-44 | loads the cache and statistics with the filter "all", but the table stays empty |
| View.TaskView.NeedsReload | untitled26/src/main/java/org/example/TaskView.java:355-356 | an empty cache is always reloaded; a non-empty one is reloaded only once it is older than 30000 ms |
| View.TaskView.ApplyFilter | untitled26/src/main/java/org/example/TaskView.java:346-423 | a no-op while loading; otherwise records the filter, reloads exactly when the cache is empty or older than 30000 ms, shows View.FilterTasks of the cache, and leaves isLoading as it found it |
| View.TaskView.UpdateStatistics | untitled26/src/main/java/org/example/TaskView.java:425-464 | nothing on an empty cache, otherwise View.StatisticsOf the cache |
| View.TaskView.RefreshAllData | untitled26/src/main/java/org/example/TaskView.java:295-320 | a no-op while loading; otherwise reloads the cache and statistics, never touches the table or the filter, and leaves isLoading as it found it |
| View.TaskView.RefreshFromDatabase | untitled26/src/main/java/org/example/TaskView.java:322-344 | the same effect as refreshAllData: a no-op while loading, otherwise reloads the cache and recomputes the statistics, leaving the table and filter alone |
| View.TaskView.SelectFilter | untitled26/src/main/java/org/example/TaskView.java:95-104 | ignored while loading; otherwise shows the chosen filter, reloads the cache exactly when it is empty or older than 30000 ms (keeping cache and timestamp otherwise), and recomputes the statistics, which stay as they were on an empty cache |
| View.TaskView.ChangeFirstCached | untitled26/src/main/java/org/example/TaskView.java:627-633 | changes only the first cached task with the id, and reports whether there was one |
| View.TaskView.RemoveLastCached | untitled26/src/main/java/org/example/TaskView.java:679-687 | removes only the last cached task with the id, and reports whether there was one |
| View.TaskView.AddTask | untitled26/src/main/java/org/example/TaskView.java:466-557 | while loading, or with a blank title or no date, nothing changes; otherwise the trimmed task is saved under the next id, appended to store and cache, and the current filter (which stays) and the statistics are refreshed |
| View.TaskView.EditSelectedTask | untitled26/src/main/java/org/example/TaskView.java:559-658 | while loading, with no selection or an invalid form, nothing changes; succeeds exactly when the store has the id; then the store's first task with the id becomes the edited task, only the first cached task with the id is replaced (an empty cache is reloaded instead), the filter is re-applied and the statistics are those of the new cache; the next id never changes; the current filter stays |
| View.TaskView.CommitEdit | untitled26/src/main/java/org/example/TaskView.java:624-654 | the service update decides success; on success the store's first task with the id is replaced, the cache patched, the filter re-applied and the statistics recomputed from the new cache; otherwise store and view are unchanged; the current filter stays |
| View.TaskView.SyncCacheAfterEdit | untitled26/src/main/java/org/example/TaskView.java:627-654 | replaces the first cached task with the id (reloading only an empty cache), re-applies the filter and recomputes the statistics (kept when the cache ends up empty); the store is untouched |
| View.TaskView.DeleteSelectedTask | untitled26/src/main/java/org/example/TaskView.java:660-718 | while loading, with no selection or unconfirmed, nothing changes; succeeds exactly when the store had the id; then every task with the id leaves the store, the last cached task with the id is removed (or the cache reloaded when none or nothing is left), and the filter and statistics are refreshed; the next id never changes; the current filter stays |
| View.TaskView.SyncCacheAfterDelete | untitled26/src/main/java/org/example/TaskView.java:678-700 | removes the last cached task with the id, or reloads when there is none or nothing is left, re-applies the filter and recomputes the statistics (kept when the cache ends up empty); the store is untouched |
| View.TaskView.MarkSelectedCompleted | untitled26/src/main/java/org/example/TaskView.java:720-770 | while loading, with no selection or a completed one, nothing changes; succeeds exactly when the store has the id; then the store's first task with the id is completed, so is the first cached one (or the cache is reloaded when none), and the filter and statistics are refreshed; the next id never changes; the current filter stays |
| View.TaskView.SyncCacheAfterMark | untitled26/src/main/java/org/example/TaskView.java:729-751 | completes the first cached task with the id, or reloads when there is none, re-applies the filter and recomputes the statistics (kept when the cache ends up empty); the store is untouched |

## Left out

- Threads and blocking: timed polls do not wait, and an interrupt is an oracle flag that fails the call. The re-set interrupt flag, `synchronized` and races on `createdConnections` are not modelled.
- The `getInstance` singleton and the pool constructor's directory creation and driver loading are process wiring and are not modelled.
- JDBC: the pool never opens real connections. Validity (`isClosed`/`isValid`), creation with its PRAGMA settings, the rollback/`setAutoCommit`/`clearWarnings` reset and `close` are oracle answers. The model records which connections the pool closed in a `closed` log.
- Pool.ConnectionPool.CloseConnection: the oracle `closeThrows` covers both an `isClosed` probe and a `close` that throw.
- The SQL-backed store, the schema set-up and the application start-up are not part of this model. The service is modelled over the in-memory store only. So the service's exception fallbacks in `findAll`, `findByCompleted` (with its `limit(100)`) and `getTotalTaskCount` are unreachable and not modelled. The `findAllSimple` branch is not modelled either.
- `findByDueDate` and `getAllCategories` of the in-memory store always return empty lists. No modelled caller uses them, so they are not modelled.
- `createdAt` and its clock reading in the store's `save` are not modelled.
- Tasks are values, so the model has no aliasing. In the program the store, the service's cache, the view's cache and the table share the same mutable `Task` objects. Setters on the selected task (edit, complete) and the store's `markAsCompleted` are therefore visible in every list at once. The model states each list's new contents explicitly instead.
- The service's cache coherence (`Service.TaskService.Valid`) assumes all mutations go through the service. Changing the store behind the service's back is not modelled.
- Task ids are never null in the model. A task the add dialog builds carries id 0 until it is saved, and the null-id guards of the view are always true.
- `long` overflow of the id allocator and of `now - lastCacheTime` is not modelled.
- `equalsIgnoreCase` folds ASCII letters only; Unicode case folding is not modelled.
- JavaFX: widgets, styling, dialogs, alerts, selection, scrolling and the details pane are not modelled. The form values, the selection and the confirmation are parameters. `Platform.runLater(taskData.setAll(...))` takes effect at once (the field `shown`). The completion percentage is floating point and is not modelled.
- Console logging throughout is not modelled.

