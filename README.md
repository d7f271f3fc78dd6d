# Construction task board: offline-first task store and sync, in Dafny

This project models the core of an offline-first task board for construction
sites. Users log in by name. Each user owns tasks, and each task has a title, an
optional description, a status, an optional floor-plan position and a checklist.
Tasks live in a local database with three keyed collections: users, tasks and
the sync-state record. A remote server may or may not answer.

The model covers these parts:

- **The task store** (`Store.TaskStore`). It holds the in-memory projection
  `tasks` with its `isLoading` and `error` slots. Its operations are fetch,
  create, update, delete, the three checklist operations, the duplicate
  cleanup, `setError` and the database reset after a schema clash.
- **The duplicate cleanup** (`Dedup`). It groups a user's stored tasks by the
  key `title|description-or-empty`, keeps the newest task of each group and
  removes the rest.
- **The sync service** (`Sync.SyncService`). It is a push cycle guarded by
  `isOnline` and `syncInProgress`. The cycle looks every local user and task up
  on the server, creates the ones the lookup missed, and stamps the single
  `sync_state` record. The service also has the online/offline handlers and
  the pull of a user's server tasks.
- **The record schemas** (`Schema`), as validity predicates over stored
  documents, with the conversions between documents and typed records.
- **The task board component** (`Board`): the search and status filter, the
  create, add-item and save-edit handlers, and the checklist toggle.
- **The login form** (`Login`): blank-name rejection, then find-or-create of the
  user, first on the server and otherwise in the local database.

The local database is a class (`LocalDb.Database`) whose collections are maps
from primary key to record. The remote server (`Api.ApiService`), the clock
(`Env.Clock`) and the id generator (`Env.IdSource`) are injected objects:

- each remote call may fail or return any record, and is appended to a log of
  exchanges;
- the clock returns arbitrary integer readings;
- the id generator returns `prefix` followed by an arbitrary non-empty suffix.

Each store, sync or handler operation runs as one atomic step. Operations that
update state in place are methods of classes, with `modifies` frames, loops and
their invariants. The pure parts are functions:

- the record edits;
- the filter;
- the grouping key;
- the upsert of a list of tasks;
- the query answer.

These functions are connected to the methods by `ensures` clauses and to each
other by lemmas.

Behaviour of the code that the model keeps and exhibits:

- **Checklist item ids diverge.** `addChecklistItem` mints one id for the stored
  item and another for the projection's item (`TaskEdits.AppendedItemsDiverge`,
  `Store.TaskStore.AddChecklistItem`).
- **Sync never promotes ids.** The task pass sends `getTaskById` with each
  stored task's own id, a locally minted `task_…` id included
  (src/services/syncService.ts:61-65), and the server's ids are never written
  back (`Sync.CycleLooksUpEveryTask`, `Sync.SyncService.Sync`).
- **Cleanup runs before the server upsert.** `fetchTasks` cleans up first, so
  two server tasks with one key are still both stored afterwards
  (`Dedup.UpsertAfterCleanupCanDuplicate`).
- **The grouping key is not injective.** Title `a|b` with no description and
  title `a` with description `b|` collide, and the cleanup then deletes one of
  two different tasks (`Dedup.DedupKeyCollision`, `Dedup.CollisionLosesATask`).
  Without a `|` in the titles the key is injective
  (`Dedup.DedupKeyInjectiveWithoutBar`).
- **`final-check-awaiting` is offered and stored, outside the schema.** The
  board offers it, so `Types.Status` has it, and updating a task to it writes
  the task to the local database: no validation rejects the write. The stored
  document is nevertheless outside taskSchema's status enum
  (`Schema.FinalCheckAwaitingRejected`).
- **Sync is guarded only by two flags.** A cycle starts unless the service is
  offline or a cycle is already running (src/services/syncService.ts:25-27);
  nothing else limits how often it runs (`Sync.SyncService.Sync`).
- **The schemas are at version 0.** All three declare version 0
  (src/database/schema.ts:4, 25, 85); taskSchema's status enum has four values
  (src/database/schema.ts:45-48); the migration declared for version 1 returns
  the document unchanged (src/database/index.ts:39-44).

## Model

| member | source | states |
|---|---|---|
| Text.Trim | src/components/TaskBoard.tsx:74 | trim(): what remains neither starts nor ends with white space |
| Text.TrimIsSlice | src/components/TaskBoard.tsx:74 | trim() keeps one contiguous slice of the string with only white space before and after it |
| Text.BlankIffAllSpace | src/components/LoginForm.tsx:14 | `!s.trim()` holds exactly when every character of `s` is white space |
| Text.TrimIdempotent | src/components/TaskBoard.tsx:77 | trimming an already trimmed string changes nothing |
| Text.Lower | src/components/TaskBoard.tsx:65 | ASCII lower-casing keeps the length of the string |
| Text.ContainsIff | src/components/TaskBoard.tsx:65 | includes(sub) holds exactly when `sub` occurs at some index of the string |
| Schema.StatusEnumIsDeclared | src/database/schema.ts:45-48 | a status's name is in the schema's enum exactly when it is one of the four statuses the TaskStatus type declares |
| Schema.ParseStatus | src/types/index.ts:29-30 | a parsed status name is the name of the status it yields |
| Schema.ParseStatusName | src/types/index.ts:29-30 | every status name parses back to its status |
| Schema.ItemsRoundTrip | src/database/schema.ts:56-71 | a checklist stored as documents reads back as the same checklist |
| Schema.TaskRoundTrip | src/database/schema.ts:24-82 | a task stored as a document reads back as the same task |
| Schema.UserRoundTrip | src/database/schema.ts:3-22 | a user reads back from its document, and the document satisfies userSchema exactly when id and name are at most 100 characters |
| Schema.SyncStateRoundTrip | src/database/schema.ts:84-94 | a sync-state record reads back from its document, and the document satisfies syncStateSchema exactly when the id is at most 100 characters |
| Schema.ValidItemsDecode | src/database/schema.ts:56-71 | checklist documents that satisfy the item schema decode, and are the encoding of what they decode to |
| Schema.StatusEnumMembershipParses | src/database/schema.ts:47 | every name in the schema's enum parses to a declared status |
| Schema.ValidTaskDocDecodes | src/database/schema.ts:24-82 | a document satisfying taskSchema (required fields, length bounds, enum) decodes to a valid task whose encoding is that document |
| Schema.ItemDocValidity | src/database/schema.ts:61-69 | an item's document satisfies the item schema exactly when id ≤ 100, text ≤ 500 and the status is a declared one |
| Schema.TaskDocValidity | src/database/schema.ts:28-81 | a task's document satisfies taskSchema exactly when id and userId ≤ 100, title ≤ 200, description ≤ 1000, its status is declared and all its items are valid |
| Schema.FinalCheckAwaitingRejected | src/database/schema.ts:45-48 | a task whose status is final-check-awaiting is invalid, and so is its document |
| LocalDb.Insert | src/stores/taskStore.ts:49-52 | inserting a task into a list adds exactly that task, as a multiset |
| LocalDb.InsertSorted | src/stores/taskStore.ts:49-52 | insertion keeps a list that is sorted by the sort field sorted |
| LocalDb.InsertDistinct | src/stores/taskStore.ts:49-52 | inserting a task with a new id keeps the ids distinct |
| LocalDb.SortBy | src/stores/taskStore.ts:49-52 | `sort: [{ createdAt: 'desc' }]`: the result is sorted descending, is a permutation of the input, and keeps distinct ids distinct |
| LocalDb.UpsertAll | src/stores/taskStore.ts:44-46 | upserting a list: the keys become the old keys plus the list's ids, records under other ids are unchanged, and records stay stored under their own id |
| LocalDb.UpsertAllOverrides | src/stores/taskStore.ts:44-46 | upserting a list overrides the store with the list's own last-wins map |
| LocalDb.UpsertAllIdempotent | src/stores/taskStore.ts:44-46 | upserting the same list twice equals upserting it once |
| LocalDb.UpsertAllLastWins | src/stores/taskStore.ts:44-46 | a task whose id no later task of the list reuses is stored under its id, overwriting an existing record or inserting a new one |
| LocalDb.SortedGathered | src/stores/taskStore.ts:49-52 | the selected tasks, sorted, are the query's answer |
| LocalDb.Database.Open | src/database/index.ts:55-60 | getDatabase: once the singleton exists it is returned; otherwise creation succeeds, clashes with the schema (DB6) or fails, and the singleton exists exactly on success |
| LocalDb.Database.FindTasks | src/stores/taskStore.ts:49-52 | find with a userId selector and a sort: exactly the stored tasks the selector accepts, each once, in sort order |
| LocalDb.Database.AllUsers | src/services/syncService.ts:41-43 | find on users with an empty selector: every stored user exactly once |
| LocalDb.Database.FindUserByName | src/components/LoginForm.tsx:31-33 | findOne by name: none exactly when no stored user has the name, otherwise a stored user with that name |
| LocalDb.Database.Upsert | src/stores/taskStore.ts:92 | upsert stores the task under its id, replacing any previous record |
| LocalDb.Database.UpsertEach | src/stores/taskStore.ts:44-46 | the loop of upserts leaves the store equal to UpsertAll of the old store and the list |
| LocalDb.Database.InsertTask | src/stores/taskStore.ts:110 | insert succeeds exactly when the id is free, and then adds the task under its id; on a conflict nothing changes |
| LocalDb.Database.InsertUser | src/components/LoginForm.tsx:43 | insert of a user succeeds exactly when the id is free, and then adds the user; on a conflict nothing changes |
| LocalDb.Database.RemoveTask | src/stores/taskStore.ts:177 | remove deletes exactly the record under that id |
| LocalDb.Database.UpsertSyncState | src/services/syncService.ts:81-85 | the sync-state record is stored under its id, replacing any previous one |
| LocalDb.Database.Clear | src/database/index.ts:62-79 | clearDatabase: with no open database it succeeds; on success every collection is empty and the singleton is gone; on failure nothing changes |
| Api.ApiService.CreateOrGetUser | src/services/api.ts:28-33 | the call and its reply, a user or a failure, are appended to the exchange log |
| Api.ApiService.GetUserById | src/services/api.ts:35-37 | the call and its reply are appended to the exchange log |
| Api.ApiService.GetTasksByUserId | src/services/api.ts:40-42 | the call and its reply, a list of tasks or a failure, are appended to the exchange log |
| Api.ApiService.GetTaskById | src/services/api.ts:44-47 | the call and its reply are appended to the exchange log |
| Api.ApiService.CreateTask | src/services/api.ts:49-54 | the call with the user id and the request, and its reply, are appended to the exchange log |
| Api.ApiService.UpdateTask | src/services/api.ts:56-62 | the call and its outcome are appended to the exchange log |
| Api.ApiService.DeleteTask | src/services/api.ts:64-72 | the call and its outcome are appended to the exchange log |
| Api.ApiService.UpdateChecklistItem | src/services/api.ts:82-87 | the call and its outcome are appended to the exchange log |
| Env.Clock.Now | src/stores/taskStore.ts:106 | a reading of the clock, appended to the readings taken so far |
| Env.IdSource.Mint | src/stores/taskStore.ts:97 | a minted id is the prefix followed by a non-empty suffix, appended to the ids minted so far |
| TaskEdits.ApplyPatch | src/stores/taskStore.ts:140-144 | Object.assign of the updates keeps id, owner, checklist and both timestamps |
| TaskEdits.ApplyPatchThen | src/stores/taskStore.ts:140-144 | two successive updates equal one merged update, and repeating an update changes nothing more |
| TaskEdits.PatchItem | src/stores/taskStore.ts:252 | `{...item, ...updates}` keeps the item's id and creation time |
| TaskEdits.ReviseItems | src/stores/taskStore.ts:251-253 | the checklist keeps its length, every item keeps its id and creation time, and items with another id are unchanged |
| TaskEdits.ReviseItemsIdempotent | src/stores/taskStore.ts:251-253 | revising an item twice with the same updates equals revising it once |
| Seqs.FilterCount | src/stores/taskStore.ts:180-182 | Array.prototype.filter keeps each accepted element exactly as often as it occurs in the input, and drops every rejected one |
| TaskEdits.RemoveItems | src/stores/taskStore.ts:294 | the filtered checklist holds exactly the items with another id, each as often as in the original, in their original order |
| TaskEdits.RemoveAfterAppend | src/stores/taskStore.ts:207-218 | deleting a just-appended item whose id is unique gives back the checklist as it was |
| TaskEdits.ApplyEdit | src/stores/taskStore.ts:140-144 | every edit keeps id, owner and createdAt and sets updatedAt to the clock reading; a checklist edit keeps the other fields; appending adds exactly the new item after the unchanged old ones; revising keeps the length |
| TaskEdits.EditTasks | src/stores/taskStore.ts:147-153 | the projection map keeps its length, every task's id, owner and createdAt, and every task with another id |
| TaskEdits.WithoutTask | src/stores/taskStore.ts:180-182 | the projection filter holds exactly the tasks with another id, each as often as in the original, in their original order |
| TaskEdits.FilterKeepsSorted | src/stores/taskStore.ts:180-182 | filtering a sorted list leaves it sorted |
| TaskEdits.FilterKeepsDistinct | src/stores/taskStore.ts:180-182 | filtering a list with distinct ids leaves the ids distinct |
| TaskEdits.EditKeepsQuery | src/stores/taskStore.ts:147-153 | after the same edit to the store and the projection, the projection is still the answer to the createdAt-sorted query it came from |
| TaskEdits.DeleteKeepsQuery | src/stores/taskStore.ts:177-182 | after deleting the task from the store and from the projection, the projection is still the answer to its query |
| TaskEdits.AppendedItemsDiverge | src/stores/taskStore.ts:207-236 | when the stored and the shown item get different ids, the stored task and its projection copy differ |
| Dedup.DedupKeyInjectiveWithoutBar | src/stores/taskStore.ts:332 | when neither title contains the separator bar, equal keys mean equal titles and equal descriptions-or-empty |
| Dedup.DedupKeyCollision | src/stores/taskStore.ts:332 | title a-bar-b without description and title a with description b-bar have the same key (the bar being the key separator) |
| Dedup.DedupNoopWhenClean | src/stores/taskStore.ts:341-357 | on a store without duplicate keys the cleanup removes nothing |
| Dedup.DedupIdempotent | src/stores/taskStore.ts:318-361 | a second cleanup removes nothing |
| Dedup.CollisionLosesATask | src/stores/taskStore.ts:332-355 | for two different tasks with colliding keys, the cleanup leaves only one |
| Dedup.UpsertAfterCleanupCanDuplicate | src/stores/taskStore.ts:35-46 | the server upsert after a cleanup can store two tasks of the user with the same key |
| Dedup.GroupByKey | src/stores/taskStore.ts:328-338 | every group is non-empty, holds only tasks of the input with its key, and every input task is in the group of its key; distinct ids stay distinct within a group |
| Dedup.RemoveTasks | src/stores/taskStore.ts:349-355 | removing each task of the list removes exactly their ids from the store |
| Dedup.RemoveDuplicates | src/stores/taskStore.ts:318-357 | afterwards only records were removed; no other user's task is removed; each of the user's tasks has a surviving task with its key and an updatedAt no earlier; no two of the user's tasks share a key |
| Dedup.ResolveGroup | src/stores/taskStore.ts:342-356 | a group loses every member except one with the greatest updatedAt |
| Dedup.NewestFirst | src/stores/taskStore.ts:344-347 | the head of the group sorted by updatedAt, newest first, has the greatest updatedAt of the group |
| Store.TaskStore.FetchTasks | src/stores/taskStore.ts:27-74 | with no database: the error 'Failed to fetch tasks' and nothing else changes; otherwise the user's duplicates are cleaned up, every server task is upserted when the server answered, the projection is exactly the user's stored tasks newest first, the error is cleared, and isLoading ends false |
| Store.TaskStore.CleanupDuplicates | src/stores/taskStore.ts:318-361 | with a database the store is deduplicated for the user; without one nothing changes and no error is set |
| Store.TaskStore.CreateTask | src/stores/taskStore.ts:76-131 | if the server creates the task, it is upserted and prepended to the projection; if the server fails, a task with a minted `task_` id, not-started status, empty checklist and the clock's timestamps is inserted and prepended; an id conflict, or no database, gives 'Failed to create task'; a schema clash clears the database and the projection and gives the schema-updated error |
| Store.TaskStore.UpdateTask | src/stores/taskStore.ts:133-167 | an existing task gets the updates merged and updatedAt refreshed in the store and in the projection, and other tasks are unchanged; the server call follows, and its failure is ignored; a missing id changes nothing and sets no error; no database gives 'Failed to update task' |
| Store.TaskStore.DeleteTask | src/stores/taskStore.ts:169-199 | an existing id is removed from the store and from the projection, then deleted on the server; an absent id is a no-op with no error; no database gives 'Failed to delete task' |
| Store.TaskStore.AddChecklistItem | src/stores/taskStore.ts:201-242 | an existing task gets one not-started item with the given text appended after its unchanged items, and updatedAt refreshed; the stored and the shown item each get their own minted `item_` id; a missing task changes nothing |
| Store.TaskStore.UpdateChecklistItem | src/stores/taskStore.ts:244-285 | in an existing task only the items with that id are revised, the checklist keeps its length, updatedAt is refreshed in the store and in the projection, and the server call follows |
| Store.TaskStore.DeleteChecklistItem | src/stores/taskStore.ts:287-316 | in an existing task exactly the items with that id are removed, the others keep their order, and updatedAt is refreshed in the store and in the projection |
| Store.TaskStore.SetError | src/stores/taskStore.ts:363 | the error slot becomes the given value |
| Store.TaskStore.ClearDatabaseAndRetry | src/stores/taskStore.ts:365-375 | on success the projection and all collections are empty, the error is cleared and the database is closed; on failure the error asks for a page refresh and nothing else changes |
| Sync.RoundsLength | src/services/syncService.ts:46-78 | a pass over n elements makes between n and 2n remote calls |
| Sync.CycleCallCount | src/services/syncService.ts:34-78 | a cycle visits each stored user and each stored task exactly once, so it makes between one and two calls per stored record |
| Sync.RoundsLookupEach | src/services/syncService.ts:61-78 | in a pass every element is looked up, whatever happened to the others |
| Sync.CreateFollowsFailedLookup | src/services/syncService.ts:46-78 | every call in a pass that is not a lookup creates an element whose lookup came just before it and failed |
| Sync.CycleLooksUpEveryTask | src/services/syncService.ts:61-65 | a completed cycle calls getTaskById with the local id of every stored task |
| Sync.CycleCreatesUserOnlyAfterMiss | src/services/syncService.ts:46-57 | a cycle sends createOrGetUser only for a stored user whose getUserById came just before and failed |
| Sync.SingleSyncState | src/services/syncService.ts:81-85 | after a cycle, a store that held at most the sync-state record holds exactly one, with isOnline equal to the flag |
| Sync.SyncService.constructor | src/services/syncService.ts:5-22 | the service starts with the browser's online flag, not syncing, and runs a first cycle: online with a database, each stored user is looked up once and each stored task once, and the sync_state record is stamped; offline, or online when the database fails to open, no call and no write |
| Sync.SyncService.Sync | src/services/syncService.ts:24-92 | offline or already syncing: nothing happens; otherwise the user pass, visiting each stored user exactly once, and then the task pass, newest update first, are made; the sync_state record is overwritten with a clock reading and the online flag; tasks and users are not written; syncInProgress is false again on every exit |
| Sync.SyncService.PushAll | src/services/syncService.ts:34-78 | with the database open, the stored users and then the stored tasks, newest update first, are pushed: one cycle of traffic in which each stored user and each stored task is visited exactly once |
| Sync.SyncService.PushUsers | src/services/syncService.ts:46-58 | the user loop appends one lookup per user, followed by a creation exactly when the lookup failed |
| Sync.SyncService.PushTasks | src/services/syncService.ts:61-78 | the task loop appends one lookup per task by its local id, followed by a creation with its title, description and position exactly when the lookup failed |
| Sync.SyncService.OnOnline | src/services/syncService.ts:11-14 | the online event sets isOnline and runs a cycle, with each stored user and task visited once, unless one is already running |
| Sync.SyncService.OnOffline | src/services/syncService.ts:16-18 | the offline event only clears isOnline |
| Sync.SyncService.PullFromServer | src/services/syncService.ts:94-113 | offline: no call and no write; online with a database: every task the server returns is upserted by id, and a failure writes nothing |
| Board.FilteredTasks | src/components/TaskBoard.tsx:63-71 | the filtered list is an order-preserving sub-list of the tasks, holding exactly those, each as often as in the input, that match the lower-cased term in title or non-empty description and have the selected status (any status for "all") |
| Board.ShowAllWhenUnfiltered | src/components/TaskBoard.tsx:63-71 | an empty term matches every task, so only the status filter applies; with "all" selected as well every task is shown |
| Board.LowerIdempotent | src/components/TaskBoard.tsx:65 | lower-casing twice is lower-casing once |
| Board.SearchIgnoresTermCase | src/components/TaskBoard.tsx:64-67 | the filter gives the same list for a term and for its lower-cased form |
| Board.OptionalText | src/components/TaskBoard.tsx:77 | the trimmed text or undefined: undefined exactly for an all-white-space text, and is otherwise the non-empty trimmed text |
| Board.ToggledStatus | src/components/TaskBoard.tsx:454-460 | the checkbox maps completed to not-started and any other status to completed |
| Board.ToggleTwice | src/components/TaskBoard.tsx:454-460 | two clicks give back a completed or not-started status |
| Board.SavePatch | src/components/TaskBoard.tsx:110-114 | save-edit sends title, description and status and leaves the position alone |
| Board.EditSaveRoundTrip | src/components/TaskBoard.tsx:100-120 | for a task whose title and description are already trimmed, the save patch built from its unchanged edit fields, applied, gives back the same task |
| Board.TaskBoard.HandleCreateTask | src/components/TaskBoard.tsx:73-81 | a blank title does nothing; otherwise the trimmed title and the trimmed description (undefined if empty) are sent, and the form is reset and closed |
| Board.TaskBoard.HandleAddChecklistItem | src/components/TaskBoard.tsx:83-86 | a blank text is ignored; otherwise the trimmed text is added to the task |
| Board.TaskBoard.HandleEditTask | src/components/TaskBoard.tsx:100-105 | the edit fields take the task's title, description (or "") and status |
| Board.TaskBoard.HandleSaveEdit | src/components/TaskBoard.tsx:107-120 | with no task being edited, or a blank title, nothing happens; otherwise the trimmed title and description and the status are sent for that task and the edit fields are reset |
| Board.TaskBoard.HandleCancelEdit | src/components/TaskBoard.tsx:122-127 | the edit fields are reset |
| Board.TaskBoard.ToggleChecklistItem | src/components/TaskBoard.tsx:454-460 | the item update sent carries only the toggled status |
| Login.LoginForm.HandleSubmit | src/components/LoginForm.tsx:12-55 | a blank name sets 'Name is required' and makes no call, opens no database, mints no id and reads no clock; otherwise createOrGetUser is called with the trimmed name, a server user is used as is without opening the database, a failure leads to the offline path, and isLoading ends false |
| Login.LoginForm.SubmitName | src/components/LoginForm.tsx:19-54 | a non-blank trimmed name is sent to createOrGetUser once; a server user is used as is, with no local write and without opening the database; a failure runs the offline path; isLoading ends false |
| Login.LoginForm.LocalLogin | src/components/LoginForm.tsx:27-46 | with no database: the login error; a stored user with that name is reused with no write; in both cases no id is minted and no clock read; otherwise exactly one user with a minted `user_` id, the trimmed name and a clock reading is inserted and used, and an id conflict gives the login error |

## Left out

- The network client: the URL building, JSON encoding and HTTP status handling of `src/services/api.ts` are an abstract service whose calls fail or return any record. The server's own behaviour is not modelled.
- The API's `addChecklistItem` and `deleteChecklistItem` endpoints: nothing in the modelled core calls them.
- RxDB and IndexedDB internals: indexes, revisions, the reactive queries and the no-op migration strategy. The database is three maps and a connection flag.
- Local writes (upsert, remove, incrementalModify) never fail. The only failures modelled are an insert that conflicts on an existing id and a failure to open the database.
- LocalDb.Database.Clear: a failed `indexedDB.deleteDatabase` is swallowed by the code; the model treats that case as a successful clear.
- Rendering and pointer handling: `FloorPlan.tsx`, `TaskCard.tsx`, `Dashboard.tsx` and `App.tsx`, the JSX of the two modelled components, and the delete confirmation dialog.
- The authentication store: `Login.LoginForm` keeps the user handed to `setUser` in its own `user` field.
- `getOnlineStatus` and the `navigator.onLine` read: the constructor takes the flag as a parameter.
- Timers and the unused sync settings in `src/config/index.ts`: there is no scheduler in the code and none in the model.
- Async interleaving: each operation is one atomic step, so a second sync cannot start while a cycle runs.
- Logging: every `console.*` call.
- Timestamps are integers from the clock. The code's ISO date strings, and the Date parsing in the cleanup's sort, are not modelled.
- Positions are pairs of reals. Floating-point pixel coordinates are not modelled.
- Text.Lower: lower-cases ASCII letters only, not the full Unicode mapping of toLowerCase.
- Store.TaskStore.CreateTask: the local record's createdAt and updatedAt come from one clock reading; the code calls `new Date()` once for each.
- Store.TaskStore.AddChecklistItem: one clock reading serves both items' createdAt and both copies' updatedAt; the code reads the clock four times.
- Store.TaskStore.UpdateTask: the store and the projection get the same updatedAt reading; the code reads the clock once for each. Its updates are the fields of UpdateTaskRequest (title, description, status, position). A `Partial<Task>` that also carries an id, owner, checklist or timestamps is not modelled.
- Store.TaskStore.UpdateChecklistItem and Store.TaskStore.DeleteChecklistItem: one clock reading serves the store and the projection.
- Store.TaskStore.FetchTasks: tasks with equal createdAt may come in any order; RxDB's tie-breaking is not modelled.
- Sync.SyncService.Sync and LocalDb.Database.FindTasks: in the task pass's updatedAt-descending query, tasks with equal updatedAt may come in any order; RxDB breaks such ties by primary key, which is not modelled.
- TaskEdits.EditKeepsQuery: stated for the unsorted and createdAt-sorted queries only, because an edit changes updatedAt and so can reorder an updatedAt-sorted answer.
