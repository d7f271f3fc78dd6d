// The remote REST client (src/services/api.ts) as seen by the core: every call
// either throws or returns a reply chosen by a server this model does not
// describe. Each call is recorded, with its outcome, in `log`.
module Api {
  import opened Types

  /** The requests the core issues, one per client method it calls. */
  datatype Request =
    | CreateOrGetUser(name: string)
    | GetUserById(id: string)
    | GetTasksByUserId(userId: string)
    | GetTaskById(id: string)
    | CreateTask(userId: string, request: TaskRequest)
    | UpdateTask(id: string, patch: TaskPatch)
    | DeleteTask(id: string)
    | UpdateChecklistItem(taskId: string, itemId: string, itemPatch: ItemPatch)

  /** `Failed` is a call that threw (network error or non-2xx status). */
  datatype Reply = Failed | Done | GotUser(user: User) | GotTask(task: Task) | GotTasks(tasks: seq<Task>)

  datatype Exchange = Exchange(request: Request, reply: Reply)

  /** `log1` is `log0` with one more exchange, for request `r`. */
  ghost predicate Called(log0: seq<Exchange>, log1: seq<Exchange>, r: Request)
  {
    |log1| == |log0| + 1 && log1[..|log0|] == log0 && log1[|log0|].request == r
  }

  class ApiService {
    var log: seq<Exchange>

    constructor ()
      ensures log == []
    {
      log := [];
    }

    method CreateOrGetUser(name: string) returns (r: Option<User>)
      modifies this
      ensures log == old(log) + [Exchange(Request.CreateOrGetUser(name), if r.Some? then GotUser(r.value) else Failed)]
    {
      r :| true;
      log := log + [Exchange(Request.CreateOrGetUser(name), if r.Some? then GotUser(r.value) else Failed)];
    }

    method GetUserById(id: string) returns (r: Option<User>)
      modifies this
      ensures log == old(log) + [Exchange(Request.GetUserById(id), if r.Some? then GotUser(r.value) else Failed)]
    {
      r :| true;
      log := log + [Exchange(Request.GetUserById(id), if r.Some? then GotUser(r.value) else Failed)];
    }

    method GetTasksByUserId(userId: string) returns (r: Option<seq<Task>>)
      modifies this
      ensures log == old(log) + [Exchange(Request.GetTasksByUserId(userId), if r.Some? then GotTasks(r.value) else Failed)]
    {
      r :| true;
      log := log + [Exchange(Request.GetTasksByUserId(userId), if r.Some? then GotTasks(r.value) else Failed)];
    }

    method GetTaskById(id: string) returns (r: Option<Task>)
      modifies this
      ensures log == old(log) + [Exchange(Request.GetTaskById(id), if r.Some? then GotTask(r.value) else Failed)]
    {
      r :| true;
      log := log + [Exchange(Request.GetTaskById(id), if r.Some? then GotTask(r.value) else Failed)];
    }

    method CreateTask(userId: string, request: TaskRequest) returns (r: Option<Task>)
      modifies this
      ensures log == old(log) + [Exchange(Request.CreateTask(userId, request), if r.Some? then GotTask(r.value) else Failed)]
    {
      r :| true;
      log := log + [Exchange(Request.CreateTask(userId, request), if r.Some? then GotTask(r.value) else Failed)];
    }

    method UpdateTask(id: string, patch: TaskPatch) returns (r: Option<Task>)
      modifies this
      ensures log == old(log) + [Exchange(Request.UpdateTask(id, patch), if r.Some? then GotTask(r.value) else Failed)]
    {
      r :| true;
      log := log + [Exchange(Request.UpdateTask(id, patch), if r.Some? then GotTask(r.value) else Failed)];
    }

    method DeleteTask(id: string) returns (ok: bool)
      modifies this
      ensures log == old(log) + [Exchange(Request.DeleteTask(id), if ok then Done else Failed)]
    {
      ok :| true;
      log := log + [Exchange(Request.DeleteTask(id), if ok then Done else Failed)];
    }

    method UpdateChecklistItem(taskId: string, itemId: string, patch: ItemPatch) returns (ok: bool)
      modifies this
      ensures log == old(log) + [Exchange(Request.UpdateChecklistItem(taskId, itemId, patch), if ok then Done else Failed)]
    {
      ok :| true;
      log := log + [Exchange(Request.UpdateChecklistItem(taskId, itemId, patch), if ok then Done else Failed)];
    }
  }
}
