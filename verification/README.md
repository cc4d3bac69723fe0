# Task tracker: a Dafny model of the task router and the client's task list

The application keeps a flat collection of tasks (`id`, `title`, `completed`,
`createdAt`). An Express router exposes four handlers over it: list, create,
update and delete. A React component holds a local copy of the list and
reconciles it from each response. This project models both as pure state
transitions and proves what they promise.

- `task_model.dfy` (module `TaskModel`): the `Task` record and the operations
  addressed by id that both sides perform. The backend's `WHERE id = ?` and the
  client's `tasks.map` / `tasks.filter` on `t.id` are the same replace-by-id and
  remove-by-id.
- `ordering.dfy` (`Ordering`): the listing order, newest `createdAt` first,
  computed by an insertion sort.
- `task_routes.dfy` (`TaskRoutes`): the four handlers. Each is a function from
  the store and the request to the HTTP status, the JSON body and the new store.
  The store is the table's rows in insertion order plus the next autoincrement
  id.
- `route_properties.dfy` (`RouteProperties`): properties that relate several
  handler calls. They cover what a later listing or lookup sees, and what
  happens when a request is repeated.
- `app.dfy` (`App`): the client handlers `fetchTasks`, `addTask`, `toggleTask`
  and `deleteTask`, plus the counters shown above the list.
- `client_server.dfy` (`ClientServer`): the client handlers fed with the
  router's responses. The HTTP client resolves on a 2xx status and rejects on
  any other.

Inputs that the code receives from outside become parameters:
- The ORM's failures: `fault` on list; a `Verdict` on create; a `Fault` on
  update and delete, which says whether the lookup or the write failed.
- The clock: `now` on create.
- The user's answer to the confirmation dialog: `confirmed`.
- How each HTTP request settled: `Reply` is `Ok(data)` or `Failed`.

## Model

| member | source | states |
|---|---|---|
| TaskModel.FindById | backend/routes/tasks.js:32 | the first position holding the id, or none exactly when no task carries it |
| TaskModel.ReplaceById | frontend/src/App.js:48 | same length; every task with the id becomes the new task and every other task stays at its position |
| TaskModel.RemoveById | frontend/src/App.js:60 | no task with the id remains, and the result is a sub-multiset of the input |
| TaskModel.RemoveByIdKeepsAll | frontend/src/App.js:60 | every task with a different id survives the removal |
| TaskModel.RemoveByIdAppend | frontend/src/App.js:60 | removal distributes over concatenation, so the survivors keep their relative order |
| TaskModel.RemoveAbsentId | frontend/src/App.js:60 | a list without the id is left exactly as it was |
| TaskModel.RemoveSoleId | backend/routes/tasks.js:56 | removing an id held at one position only drops exactly that position |
| TaskModel.UniqueIdAlone | backend/routes/tasks.js:56 | with unique ids (the table's primary key), a task's id appears nowhere else in the list, so destroying its row touches no other |
| TaskModel.RemoveUniqueId | backend/routes/tasks.js:56 | with unique ids, deleting an id removes exactly one task and keeps the others in order |
| TaskModel.RemoveKeepsUnique | backend/routes/tasks.js:56 | removal keeps the primary key unique |
| Ordering.Insert | backend/routes/tasks.js:8-10 | inserting into a newest-first list keeps it newest first and adds exactly that task |
| Ordering.SortNewestFirst | backend/routes/tasks.js:8-10 | the result is ordered by createdAt non-increasing and is a permutation of the input |
| Ordering.NewestComesFirst | backend/routes/tasks.js:8-10 | a task strictly newer than all others heads a newest-first list |
| Ordering.SameNewest | backend/routes/tasks.js:8-10 | two newest-first arrangements of one collection with distinct timestamps have the same head |
| Ordering.SameTails | backend/routes/tasks.js:8-10 | removing equal heads from equal collections leaves equal collections |
| Ordering.NewestFirstUnique | backend/routes/tasks.js:8-10 | with distinct timestamps, the listing order is fully determined by the stored collection |
| TaskRoutes.Find | backend/routes/tasks.js:32 | the lookup by primary key finds a stored task with that id exactly when one exists |
| TaskRoutes.ListTasks | backend/routes/tasks.js:6-15 | 200 with a permutation of the store ordered by createdAt descending, or 500 with the query's message; the store never changes |
| TaskRoutes.CreateTask | backend/routes/tasks.js:18-27 | 201 with a new task that has the request's title, is not completed and has a fresh id, appended after the unchanged old rows; a rejected insert gives 400 and leaves the store unchanged; the store stays valid |
| TaskRoutes.ApplyPatch | backend/routes/tasks.js:37-40 | an absent or empty title keeps the old title; a present `completed`, `false` included, overrides it; the id and createdAt never change |
| TaskRoutes.UpdateTask | backend/routes/tasks.js:30-46 | a failed lookup gives 400; an unknown id gives 404 "Task not found"; a failed write gives 400; all three leave the store unchanged; otherwise 200 with the patched task, which replaces only the rows with that id |
| TaskRoutes.DeleteTask | backend/routes/tasks.js:49-61 | a failed lookup gives 500; an unknown id gives 404 "Task not found"; a failed destroy gives 500; all three leave the store unchanged; otherwise 200 "Task deleted" and the id is gone |
| TaskRoutes.RemovePreservesValid | backend/routes/tasks.js:56 | a delete keeps ids unique and below the next id |
| RouteProperties.PatchIdempotent | backend/routes/tasks.js:37-40 | applying a patch twice writes the same task as applying it once |
| RouteProperties.EmptyPatchKeepsTask | backend/routes/tasks.js:37-40 | a body with neither field leaves the task unchanged |
| RouteProperties.PatchKeepsTitleNonEmpty | backend/routes/tasks.js:38 | the falsy fallback means an update never empties a non-empty title |
| RouteProperties.CreateThenList | backend/routes/tasks.js:8-11 | after a create, the listing holds the old tasks plus exactly one new task with the given title, not completed, with a fresh id |
| RouteProperties.CreatedNewestListedFirst | backend/routes/tasks.js:8-11 | a task created later than every stored task heads the next listing |
| RouteProperties.CreateTwiceDistinct | backend/routes/tasks.js:20-22 | two identical creates store records with different ids |
| RouteProperties.UpdateCompletedThenFind | backend/routes/tasks.js:37-42 | after setting `completed` to true or to false, a lookup finds the old task with only that flag changed |
| RouteProperties.UpdateIdempotent | backend/routes/tasks.js:30-46 | a second identical PUT answers the same and leaves the same store |
| RouteProperties.DeleteRemovesExactlyOne | backend/routes/tasks.js:56-57 | a delete removes exactly the addressed row and keeps the others in order |
| RouteProperties.DeleteThenFind | backend/routes/tasks.js:51-57 | after a delete, neither the lookup nor the listing sees the task |
| RouteProperties.DeleteTwice | backend/routes/tasks.js:51-54 | a second delete of the same id answers 404 "Task not found" and leaves the store unchanged |
| App.TrimStart | frontend/src/App.js:29 | the result is a suffix, the dropped prefix is whitespace, and the result does not start with whitespace |
| App.TrimEnd | frontend/src/App.js:29 | the result is a prefix, the dropped suffix is whitespace, and the result does not end with whitespace |
| App.Trim | frontend/src/App.js:29 | the trimmed text is the infix of the input between a leading and a trailing run of whitespace; it is empty exactly when every character is whitespace, and otherwise neither starts nor ends with whitespace |
| App.FetchTasks | frontend/src/App.js:17-25 | on success the local list is replaced wholesale by the server's; on failure nothing changes |
| App.AddTask | frontend/src/App.js:27-41 | no request is sent exactly when the input is blank, and then nothing changes; otherwise the untrimmed input is posted; on success the server's task is prepended and the input cleared; on failure the list and the input stay |
| App.ToggleTask | frontend/src/App.js:43-53 | sends the negated flag; on success only tasks with that id are replaced by the response, with length and order kept; on failure nothing changes |
| App.DeleteTask | frontend/src/App.js:55-65 | a declined confirmation sends nothing and changes nothing; on success the id is gone, every other task survives in order, and nothing is added; on failure nothing changes |
| App.FailureChangesNothing | frontend/src/App.js:21-64 | a failed fetch, add, toggle or delete leaves the task list unchanged (the `catch` blocks at App.js:21-24, 36-39, 49-52 and 61-64) |
| App.CountCompleted | frontend/src/App.js:87-88 | a counter never exceeds the number of tasks |
| App.CountSplit | frontend/src/App.js:86-88 | the completed count plus the pending count equals the total |
| App.CountAppend | frontend/src/App.js:87-88 | the counters distribute over concatenation |
| App.AllCompletedCount | frontend/src/App.js:87 | the completed count equals the total exactly when every task is completed |
| App.StatsOf | frontend/src/App.js:85-89 | total is the list's length, completed plus pending equals total, and completed equals total exactly when all tasks are done |
| App.AddMovesOneCounter | frontend/src/App.js:34 | prepending a created task raises the total and exactly one of the completed and pending counters by one |
| ClientServer.TaskReply | frontend/src/App.js:45-48 | a 2xx response carrying a task resolves with that task; any other status rejects (a 2xx of another shape is never sent, see RouterSuccessShapes) |
| ClientServer.ListReply | frontend/src/App.js:19-20 | a 2xx response carrying the list resolves with it; any other status rejects (a 2xx of another shape is never sent, see RouterSuccessShapes) |
| ClientServer.RouterSuccessShapes | backend/routes/tasks.js:11 | every 2xx answer of list, create and update carries the list or the task the client reads from it (tasks.js:11, 23, 42) |
| ClientServer.AckReply | frontend/src/App.js:59-60 | a response whose body is ignored settles as success exactly when its status is 2xx |
| ClientServer.FindStored | backend/routes/tasks.js:32 | in a valid store, looking up a stored task's id finds that task |
| ClientServer.ToggleRoundTrip | frontend/src/App.js:45-48 | toggling a stored task makes every local copy the stored task with its flag negated; any server failure leaves the client unchanged |
| ClientServer.AddRoundTrip | frontend/src/App.js:33-35 | an accepted add of the newest task puts the server's task, with the typed title and not completed, at the head of both the client's list and the next listing |
| ClientServer.RejectedAddChangesNothing | frontend/src/App.js:36-39 | a create the ORM rejects leaves both the store and the client's list unchanged |
| ClientServer.DeleteRoundTrip | frontend/src/App.js:59-60 | a confirmed delete removes the id on both sides; an unknown id answers 404 and the client keeps its list |
| ClientServer.FetchMirrorsStore | frontend/src/App.js:19-20 | after a successful fetch, the client holds a newest-first permutation of the store |

## Left out

- Express bootstrap, CORS, JSON parsing, the health endpoint, schema sync and logging in `backend/server.js`. They are I/O plumbing with no state to model.
- The ORM and the Task schema. `models/Task` is not part of this model. Lookups, inserts, updates and deletes are operations on the rows. The ORM's failures and its verdict on an insert are inputs rather than modelled validation rules.
- TaskRoutes.CreateTask: assumes that the Task schema (`models/Task`, which is not part of this model) makes the title required, so the ORM rejects an insert without one. The `requires title.None? ==> verdict.Reject?` encodes that assumption. Whether an empty or whitespace-only title is rejected also depends on that schema, so the verdict input decides it.
- `updatedAt` and its refresh on every write. The ORM maintains it. `createdAt` is an opaque natural number used only for ordering, and the clock is the `now` parameter.
- Ties in `createdAt`. SQL's `ORDER BY createdAt DESC` leaves their order unspecified. The model sorts stably, but it claims only sortedness and the permutation, plus uniqueness when timestamps are distinct.
- JSON values of unexpected types in a request body, such as a numeric title or `completed: null`. The patch holds an optional string and an optional boolean. Under JavaScript rules `null` would be stored as `completed`, and `0` or `false` would fall back like an empty title.
- Path ids that are not numbers. The `:id` parameter is modelled as a natural number.
- Raw Express `res` objects. Responses are modelled as a status and a JSON body.
- React rendering, the `loading` spinner's intermediate value, `window.confirm`, `alert` and `console.error`. The transitions record only the final `loading` value, the confirmation is the `confirmed` input, and the alerts are output only.
- Concurrency: overlapping client requests, responses arriving out of order, the handlers capturing a stale `tasks` value, and concurrent writers on the server. Each transition is atomic.
- A PUT falls back on the old title for any falsy value (`req.body.title || task.title`, backend/routes/tasks.js:38), so a title can never be cleared. The client posts the input untrimmed (frontend/src/App.js:33), although its guard trims it (frontend/src/App.js:29). The model follows the code in both.
