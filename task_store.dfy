// The task store (src/stores/taskStore.ts): the in-memory projection `tasks`
// with its `isLoading` and `error` slots, in front of the local database, the
// remote API, the clock and the id source. Each operation runs as one step.
module Store {
  import opened Types
  import opened Seqs
  import opened LocalDb
  import Api
  import opened Env
  import opened TaskEdits
  import Dedup

  const FetchFailed: string := "Failed to fetch tasks"
  const CreateFailed: string := "Failed to create task"
  const SchemaUpdated: string := "Database schema updated. Please try creating the task again."
  const UpdateFailed: string := "Failed to update task"
  const DeleteFailed: string := "Failed to delete task"
  const AddItemFailed: string := "Failed to add checklist item"
  const UpdateItemFailed: string := "Failed to update checklist item"
  const DeleteItemFailed: string := "Failed to delete checklist item"
  const ClearFailed: string := "Failed to clear database. Please refresh the page."

  /** The query behind the projection: a user's tasks, newest first. */
  function UserTasks(u: string): TaskQuery
  {
    TaskQuery(Some(u), CreatedAtDesc)
  }

  /** fetchTasks' effect on the store: cleanup of u's duplicates, then, when the
      server answered, an upsert of every server task. */
  ghost predicate Fetched(before: map<string, Task>, after: map<string, Task>, u: string, reply: Api.Reply)
  {
    exists cleaned :: Dedup.Deduplicated(before, cleaned, u) && after == (if reply.GotTasks? then UpsertAll(cleaned, reply.tasks) else cleaned)
  }

  /** The same task edited in the store and in the projection. */
  ghost predicate EditedBoth(shown0: seq<Task>, shown1: seq<Task>, stored0: map<string, Task>, stored1: map<string, Task>,
                             id: string, stored: Edit, shown: Edit, now: int)
    requires id in stored0
  {
    stored1 == stored0[id := ApplyEdit(stored0[id], stored, now)] && shown1 == EditTasks(shown0, id, shown, now)
  }

  /** The record createTask makes locally when the server is unreachable. */
  function LocalTask(id: string, u: string, title: string, description: Option<string>, position: Option<Position>, now: int): Task
  {
    Task(id, u, title, description, NotStarted, position, [], now, now)
  }

  class TaskStore {
    var tasks: seq<Task>
    var isLoading: bool
    var error: Option<string>
    const db: Database
    const api: Api.ApiService
    const clock: Clock
    const ids: IdSource

    ghost predicate Valid()
      reads this, db
    {
      db.Valid()
    }

    constructor (db: Database, api: Api.ApiService, clock: Clock, ids: IdSource)
      requires db.Valid()
      ensures Valid() && tasks == [] && !isLoading && error == None
      ensures this.db == db && this.api == api && this.clock == clock && this.ids == ids
    {
      this.db, this.api, this.clock, this.ids := db, api, clock, ids;
      tasks, isLoading, error := [], false, None;
    }

    method FetchTasks(u: string)
      requires Valid()
      modifies this`tasks, this`isLoading, this`error, db`tasks, db`connected, api
      ensures Valid() && !isLoading
      ensures old(db.connected) ==> db.connected
      ensures !db.connected ==> error == Some(FetchFailed) && tasks == old(tasks) && db.tasks == old(db.tasks) && api.log == old(api.log)
      ensures db.connected ==>
        && error == None
        && Api.Called(old(api.log), api.log, Api.Request.GetTasksByUserId(u))
        && Fetched(old(db.tasks), db.tasks, u, Last(api.log).reply)
        && IsQueryResult(tasks, db.tasks, UserTasks(u))
    {
      isLoading, error := true, None;
      var st := db.Open();
      if st != Ready {
        error, isLoading := Some(FetchFailed), false;
        return;
      }
      CleanupDuplicates(u);
      var server := api.GetTasksByUserId(u);
      if server.Some? {
        db.UpsertEach(server.value);
      }
      tasks := db.FindTasks(UserTasks(u));
      isLoading := false;
    }

    /** cleanupDuplicates; its own failures are swallowed. */
    method CleanupDuplicates(u: string)
      requires Valid()
      modifies db`tasks, db`connected
      ensures Valid() && (old(db.connected) ==> db.connected)
      ensures db.connected ==> Dedup.Deduplicated(old(db.tasks), db.tasks, u)
      ensures !db.connected ==> db.tasks == old(db.tasks)
    {
      var st := db.Open();
      if st == Ready {
        Dedup.RemoveDuplicates(db, u);
      }
    }

    method CreateTask(u: string, title: string, description: Option<string>, position: Option<Position>)
      requires Valid()
      modifies this`tasks, this`error, db, api, clock, ids
      ensures Valid()
      ensures old(db.connected) ==> db.connected
      ensures !db.connected ==>
        && api.log == old(api.log)
        && ((error == Some(SchemaUpdated) && tasks == [] && db.tasks == map[] && db.users == map[] && db.syncstate == map[])
           || (error == Some(CreateFailed) && tasks == old(tasks) && db.tasks == old(db.tasks)
               && db.users == old(db.users) && db.syncstate == old(db.syncstate)))
      ensures db.connected ==>
        && db.users == old(db.users) && db.syncstate == old(db.syncstate)
        && Api.Called(old(api.log), api.log, Api.Request.CreateTask(u, TaskRequest(title, description, position)))
        && (Last(api.log).reply.GotTask? ==>
              var t := Last(api.log).reply.task;
              db.tasks == old(db.tasks)[t.id := t] && tasks == [t] + old(tasks) && error == old(error))
        && (Last(api.log).reply.Failed? ==>
              && |ids.minted| == |old(ids.minted)| + 1 && |clock.readings| == |old(clock.readings)| + 1
              && var t := LocalTask(Last(ids.minted), u, title, description, position, Last(clock.readings));
              && HasPrefix(t.id, "task_")
              && if t.id in old(db.tasks) then
                   error == Some(CreateFailed) && tasks == old(tasks) && db.tasks == old(db.tasks)
                 else
                   db.tasks == old(db.tasks)[t.id := t] && tasks == [t] + old(tasks) && error == old(error))
    {
      var st := db.Open();
      if st != Ready {
        if st == SchemaMismatch {
          ClearDatabaseAndRetry();
          error := Some(SchemaUpdated);
        } else {
          error := Some(CreateFailed);
        }
        return;
      }
      var created := api.CreateTask(u, TaskRequest(title, description, position));
      var t: Task;
      if created.Some? {
        t := created.value;
        db.Upsert(t);
      } else {
        var id := ids.Mint("task_");
        var now := clock.Now();
        t := LocalTask(id, u, title, description, position, now);
        var ok := db.InsertTask(t);
        if !ok {
          error := Some(CreateFailed);
          return;
        }
      }
      tasks := [t] + tasks;
    }

    method UpdateTask(taskId: string, patch: TaskPatch)
      requires Valid()
      modifies this`tasks, this`error, db`tasks, db`connected, api, clock
      ensures Valid() && (old(db.connected) ==> db.connected)
      ensures !db.connected ==> error == Some(UpdateFailed) && tasks == old(tasks) && db.tasks == old(db.tasks) && api.log == old(api.log)
      ensures db.connected && taskId !in old(db.tasks) ==>
        tasks == old(tasks) && db.tasks == old(db.tasks) && error == old(error) && api.log == old(api.log)
      ensures db.connected && taskId in old(db.tasks) ==>
        && error == old(error)
        && |clock.readings| == |old(clock.readings)| + 1
        && EditedBoth(old(tasks), tasks, old(db.tasks), db.tasks, taskId, Assign(patch), Assign(patch), Last(clock.readings))
        && Api.Called(old(api.log), api.log, Api.Request.UpdateTask(taskId, patch))
    {
      var st := db.Open();
      if st != Ready {
        error := Some(UpdateFailed);
        return;
      }
      if taskId in db.tasks {
        var now := clock.Now();
        db.Upsert(ApplyEdit(db.tasks[taskId], Assign(patch), now));
        tasks := EditTasks(tasks, taskId, Assign(patch), now);
        var _ := api.UpdateTask(taskId, patch);
      }
    }

    method DeleteTask(taskId: string)
      requires Valid()
      modifies this`tasks, this`error, db`tasks, db`connected, api
      ensures Valid() && (old(db.connected) ==> db.connected)
      ensures !db.connected ==> error == Some(DeleteFailed) && tasks == old(tasks) && db.tasks == old(db.tasks) && api.log == old(api.log)
      ensures db.connected && taskId !in old(db.tasks) ==>
        tasks == old(tasks) && db.tasks == old(db.tasks) && error == old(error) && api.log == old(api.log)
      ensures db.connected && taskId in old(db.tasks) ==>
        && error == old(error)
        && db.tasks == old(db.tasks) - {taskId} && tasks == WithoutTask(old(tasks), taskId)
        && Api.Called(old(api.log), api.log, Api.Request.DeleteTask(taskId))
    {
      var st := db.Open();
      if st != Ready {
        error := Some(DeleteFailed);
        return;
      }
      if taskId in db.tasks {
        db.RemoveTask(taskId);
        tasks := WithoutTask(tasks, taskId);
        var _ := api.DeleteTask(taskId);
      }
    }

    /** The stored item and the projection's item get ids minted separately. */
    method AddChecklistItem(taskId: string, text: string)
      requires Valid()
      modifies this`tasks, this`error, db`tasks, db`connected, clock, ids
      ensures Valid() && (old(db.connected) ==> db.connected)
      ensures !db.connected ==> error == Some(AddItemFailed) && tasks == old(tasks) && db.tasks == old(db.tasks)
      ensures db.connected && taskId !in old(db.tasks) ==> tasks == old(tasks) && db.tasks == old(db.tasks) && error == old(error)
      ensures db.connected && taskId in old(db.tasks) ==>
        && error == old(error)
        && |clock.readings| == |old(clock.readings)| + 1 && |ids.minted| == |old(ids.minted)| + 2
        && var now := Last(clock.readings);
        && var stored := ChecklistItem(ids.minted[|old(ids.minted)|], text, NotStarted, now);
        && var shown := ChecklistItem(ids.minted[|old(ids.minted)| + 1], text, NotStarted, now);
        && HasPrefix(stored.id, "item_") && HasPrefix(shown.id, "item_")
        && EditedBoth(old(tasks), tasks, old(db.tasks), db.tasks, taskId, AppendItem(stored), AppendItem(shown), now)
    {
      var st := db.Open();
      if st != Ready {
        error := Some(AddItemFailed);
        return;
      }
      if taskId in db.tasks {
        var now := clock.Now();
        var storedId := ids.Mint("item_");
        db.Upsert(ApplyEdit(db.tasks[taskId], AppendItem(ChecklistItem(storedId, text, NotStarted, now)), now));
        var shownId := ids.Mint("item_");
        tasks := EditTasks(tasks, taskId, AppendItem(ChecklistItem(shownId, text, NotStarted, now)), now);
      }
    }

    method UpdateChecklistItem(taskId: string, itemId: string, patch: ItemPatch)
      requires Valid()
      modifies this`tasks, this`error, db`tasks, db`connected, api, clock
      ensures Valid() && (old(db.connected) ==> db.connected)
      ensures !db.connected ==> error == Some(UpdateItemFailed) && tasks == old(tasks) && db.tasks == old(db.tasks) && api.log == old(api.log)
      ensures db.connected && taskId !in old(db.tasks) ==>
        tasks == old(tasks) && db.tasks == old(db.tasks) && error == old(error) && api.log == old(api.log)
      ensures db.connected && taskId in old(db.tasks) ==>
        && error == old(error)
        && |clock.readings| == |old(clock.readings)| + 1
        && EditedBoth(old(tasks), tasks, old(db.tasks), db.tasks, taskId, ReviseItem(itemId, patch), ReviseItem(itemId, patch), Last(clock.readings))
        && Api.Called(old(api.log), api.log, Api.Request.UpdateChecklistItem(taskId, itemId, patch))
    {
      var st := db.Open();
      if st != Ready {
        error := Some(UpdateItemFailed);
        return;
      }
      if taskId in db.tasks {
        var now := clock.Now();
        db.Upsert(ApplyEdit(db.tasks[taskId], ReviseItem(itemId, patch), now));
        tasks := EditTasks(tasks, taskId, ReviseItem(itemId, patch), now);
        var _ := api.UpdateChecklistItem(taskId, itemId, patch);
      }
    }

    method DeleteChecklistItem(taskId: string, itemId: string)
      requires Valid()
      modifies this`tasks, this`error, db`tasks, db`connected, clock
      ensures Valid() && (old(db.connected) ==> db.connected)
      ensures !db.connected ==> error == Some(DeleteItemFailed) && tasks == old(tasks) && db.tasks == old(db.tasks)
      ensures db.connected && taskId !in old(db.tasks) ==> tasks == old(tasks) && db.tasks == old(db.tasks) && error == old(error)
      ensures db.connected && taskId in old(db.tasks) ==>
        && error == old(error)
        && |clock.readings| == |old(clock.readings)| + 1
        && EditedBoth(old(tasks), tasks, old(db.tasks), db.tasks, taskId, DropItem(itemId), DropItem(itemId), Last(clock.readings))
    {
      var st := db.Open();
      if st != Ready {
        error := Some(DeleteItemFailed);
        return;
      }
      if taskId in db.tasks {
        var now := clock.Now();
        db.Upsert(ApplyEdit(db.tasks[taskId], DropItem(itemId), now));
        tasks := EditTasks(tasks, taskId, DropItem(itemId), now);
      }
    }

    method SetError(e: Option<string>)
      modifies this`error
      ensures error == e
    {
      error := e;
    }

    method ClearDatabaseAndRetry()
      requires Valid()
      modifies this`tasks, this`error, db
      ensures Valid()
      ensures !old(db.connected) ==> error == None && tasks == []
      ensures error == None ==> tasks == [] && db.tasks == map[] && db.users == map[] && db.syncstate == map[] && !db.connected
      ensures error != None ==>
        && error == Some(ClearFailed) && tasks == old(tasks) && db.tasks == old(db.tasks)
        && db.users == old(db.users) && db.syncstate == old(db.syncstate) && db.connected == old(db.connected)
    {
      var ok := db.Clear();
      if ok {
        error, tasks := None, [];
      } else {
        error := Some(ClearFailed);
      }
    }
  }
}
