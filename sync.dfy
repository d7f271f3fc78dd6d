// The sync service (src/services/syncService.ts): two flags, a push cycle that
// looks every local user and task up on the server and creates the ones the
// lookup did not find, and a pull of a user's server tasks into the store.
module Sync {
  import opened Types
  import opened Seqs
  import opened LocalDb
  import Api
  import opened Env

  function UserLookup(u: User): Api.Request
  {
    Api.Request.GetUserById(u.id)
  }

  function UserCreate(u: User): Api.Request
  {
    Api.Request.CreateOrGetUser(u.name)
  }

  function TaskLookup(t: Task): Api.Request
  {
    Api.Request.GetTaskById(t.id)
  }

  function TaskCreate(t: Task): Api.Request
  {
    Api.Request.CreateTask(t.userId, TaskRequest(t.title, t.description, t.position))
  }

  /** The exchanges for one element: a lookup, then a creation exactly when the
      lookup failed. */
  ghost predicate Round<T>(r: seq<Api.Exchange>, x: T, lookup: T -> Api.Request, create: T -> Api.Request)
  {
    && |r| >= 1 && r[0].request == lookup(x)
    && if r[0].reply.Failed? then |r| == 2 && r[1].request == create(x) else |r| == 1
  }

  /** `seg` is one round for each element of `xs`, in order; a failed creation
      does not end the pass. */
  ghost predicate Rounds<T>(seg: seq<Api.Exchange>, xs: seq<T>, lookup: T -> Api.Request, create: T -> Api.Request)
    decreases |xs|
  {
    if xs == [] then seg == []
    else
      && |seg| >= 1 && seg[0].request == lookup(xs[0])
      && if seg[0].reply.Failed? then
           |seg| >= 2 && seg[1].request == create(xs[0]) && Rounds(seg[2..], xs[1..], lookup, create)
         else
           Rounds(seg[1..], xs[1..], lookup, create)
  }

  lemma {:induction false} RoundsExtend<T>(seg: seq<Api.Exchange>, xs: seq<T>, x: T, r: seq<Api.Exchange>,
                                           lookup: T -> Api.Request, create: T -> Api.Request)
    requires Rounds(seg, xs, lookup, create) && Round(r, x, lookup, create)
    ensures Rounds(seg + r, xs + [x], lookup, create)
    decreases |xs|
  {
    if xs == [] {
      assert seg + r == r && xs + [x] == [x];
      if r[0].reply.Failed? {
        assert r[2..] == [];
      } else {
        assert r[1..] == [];
      }
    } else {
      assert (xs + [x])[1..] == xs[1..] + [x];
      if seg[0].reply.Failed? {
        assert (seg + r)[2..] == seg[2..] + r;
        RoundsExtend(seg[2..], xs[1..], x, r, lookup, create);
      } else {
        assert (seg + r)[1..] == seg[1..] + r;
        RoundsExtend(seg[1..], xs[1..], x, r, lookup, create);
      }
    }
  }

  /** Every element is looked up once at least and at most one creation follows. */
  lemma {:induction false} RoundsLength<T>(seg: seq<Api.Exchange>, xs: seq<T>, lookup: T -> Api.Request, create: T -> Api.Request)
    requires Rounds(seg, xs, lookup, create)
    ensures |xs| <= |seg| <= 2 * |xs|
    decreases |xs|
  {
    if xs != [] {
      if seg[0].reply.Failed? {
        RoundsLength(seg[2..], xs[1..], lookup, create);
      } else {
        RoundsLength(seg[1..], xs[1..], lookup, create);
      }
    }
  }

  /** Each element of the pass is looked up, whatever happened to the others. */
  lemma {:induction false} RoundsLookupEach<T>(seg: seq<Api.Exchange>, xs: seq<T>, lookup: T -> Api.Request,
                                               create: T -> Api.Request, i: nat)
    requires Rounds(seg, xs, lookup, create) && i < |xs|
    ensures exists j :: 0 <= j < |seg| && seg[j].request == lookup(xs[i])
    decreases |xs|
  {
    if i == 0 {
      assert seg[0].request == lookup(xs[0]);
    } else if seg[0].reply.Failed? {
      RoundsLookupEach(seg[2..], xs[1..], lookup, create, i - 1);
      var j :| 0 <= j < |seg[2..]| && seg[2..][j].request == lookup(xs[1..][i - 1]);
      assert seg[j + 2].request == lookup(xs[i]);
    } else {
      RoundsLookupEach(seg[1..], xs[1..], lookup, create, i - 1);
      var j :| 0 <= j < |seg[1..]| && seg[1..][j].request == lookup(xs[1..][i - 1]);
      assert seg[j + 1].request == lookup(xs[i]);
    }
  }

  /** Every exchange that is not a lookup is the creation for the element whose
      lookup, just before it, failed. */
  lemma {:induction false} CreateFollowsFailedLookup<T>(seg: seq<Api.Exchange>, xs: seq<T>, lookup: T -> Api.Request,
                                                        create: T -> Api.Request, j: nat)
    requires Rounds(seg, xs, lookup, create) && j < |seg|
    requires forall x :: seg[j].request != lookup(x)
    ensures 0 < j && seg[j - 1].reply.Failed?
    ensures exists x :: x in xs && seg[j - 1].request == lookup(x) && seg[j].request == create(x)
    decreases |xs|
  {
    if xs == [] {
    } else if seg[0].reply.Failed? {
      if j >= 2 {
        CreateFollowsFailedLookup(seg[2..], xs[1..], lookup, create, j - 2);
        var x :| x in xs[1..] && seg[2..][j - 3].request == lookup(x) && seg[2..][j - 2].request == create(x);
        assert x in xs && seg[j - 1].request == lookup(x) && seg[j].request == create(x);
      } else if j == 1 {
        assert seg[0].request == lookup(xs[0]) && seg[1].request == create(xs[0]);
      }
    } else {
      CreateFollowsFailedLookup(seg[1..], xs[1..], lookup, create, j - 1);
      var x :| x in xs[1..] && seg[1..][j - 2].request == lookup(x) && seg[1..][j - 1].request == create(x);
      assert x in xs && seg[j - 1].request == lookup(x) && seg[j].request == create(x);
    }
  }

  /** One sync cycle's traffic: a pass over some enumeration of the local
      users, each once, then one over the local tasks, latest update first. */
  ghost predicate Cycle(log0: seq<Api.Exchange>, log1: seq<Api.Exchange>, users: map<string, User>, tasks: map<string, Task>,
                        us: seq<User>, ts: seq<Task>, segU: seq<Api.Exchange>, segT: seq<Api.Exchange>)
  {
    && (forall u :: u in us <==> u.id in users && users[u.id] == u)
    && (forall i, j :: 0 <= i < j < |us| ==> us[i].id != us[j].id)
    && IsQueryResult(ts, tasks, TaskQuery(None, UpdatedAtDesc))
    && log1 == log0 + segU + segT
    && Rounds(segU, us, UserLookup, UserCreate)
    && Rounds(segT, ts, TaskLookup, TaskCreate)
  }

  ghost predicate CycleDone(log0: seq<Api.Exchange>, log1: seq<Api.Exchange>, users: map<string, User>, tasks: map<string, Task>)
  {
    exists us: seq<User>, ts: seq<Task>, segU: seq<Api.Exchange>, segT: seq<Api.Exchange> :: Cycle(log0, log1, users, tasks, us, ts, segU, segT)
  }

  /** An enumeration of a keyed store that holds each record once under a
      distinct key is as long as the store. */
  lemma {:induction false} KeyedEnumerationLength<T>(xs: seq<T>, m: map<string, T>, key: T -> string)
    requires forall k :: k in m ==> key(m[k]) == k
    requires forall x :: x in xs <==> key(x) in m && m[key(x)] == x
    requires forall i, j :: 0 <= i < j < |xs| ==> key(xs[i]) != key(xs[j])
    ensures |xs| == |m|
    decreases |xs|
  {
    if xs == [] {
      assert forall k :: k in m ==> m[k] in xs;
    } else {
      var x := Last(xs);
      var init := xs[..|xs| - 1];
      var rest := m - {key(x)};
      assert x in xs;
      forall y ensures y in init <==> key(y) in rest && rest[key(y)] == y {
        if y in init {
          var i :| 0 <= i < |init| && init[i] == y;
          assert key(xs[i]) != key(xs[|xs| - 1]);
        }
        if key(y) in rest && rest[key(y)] == y {
          assert y in xs;
          var i :| 0 <= i < |xs| && xs[i] == y;
          assert i != |xs| - 1;
          assert init[i] == y;
        }
      }
      KeyedEnumerationLength(init, rest, key);
    }
  }

  /** A cycle's user pass visits every stored user exactly once and its task
      pass every stored task exactly once, so it makes between one and two
      calls per stored record. */
  lemma CycleCallCount(log0: seq<Api.Exchange>, log1: seq<Api.Exchange>, users: map<string, User>,
                       tasks: map<string, Task>, us: seq<User>, ts: seq<Task>,
                       segU: seq<Api.Exchange>, segT: seq<Api.Exchange>)
    requires Cycle(log0, log1, users, tasks, us, ts, segU, segT)
    requires UsersKeyed(users) && TasksKeyed(tasks)
    ensures |us| == |users| && |ts| == |tasks|
    ensures |users| + |tasks| <= |log1| - |log0| <= 2 * (|users| + |tasks|)
  {
    KeyedEnumerationLength(us, users, (u: User) => u.id);
    KeyedEnumerationLength(ts, tasks, (t: Task) => t.id);
    RoundsLength(segU, us, UserLookup, UserCreate);
    RoundsLength(segT, ts, TaskLookup, TaskCreate);
  }

  /** A cycle looks every local task up under its local id; no id is rewritten. */
  lemma CycleLooksUpEveryTask(log0: seq<Api.Exchange>, log1: seq<Api.Exchange>, users: map<string, User>,
                              tasks: map<string, Task>, id: string)
    requires CycleDone(log0, log1, users, tasks) && id in tasks && tasks[id].id == id
    ensures exists j :: |log0| <= j < |log1| && log1[j].request == Api.Request.GetTaskById(id)
  {
    var us: seq<User>, ts: seq<Task>, segU: seq<Api.Exchange>, segT: seq<Api.Exchange> :|
      Cycle(log0, log1, users, tasks, us, ts, segU, segT);
    assert tasks[id] in ts;
    var i :| 0 <= i < |ts| && ts[i] == tasks[id];
    RoundsLookupEach(segT, ts, TaskLookup, TaskCreate, i);
    var j :| 0 <= j < |segT| && segT[j].request == TaskLookup(ts[i]);
    assert log1[|log0| + |segU| + j] == segT[j];
  }

  /** In a cycle, createOrGetUser is only sent for a user whose getUserById,
      just before it, failed. */
  lemma CycleCreatesUserOnlyAfterMiss(log0: seq<Api.Exchange>, log1: seq<Api.Exchange>, users: map<string, User>,
                                      tasks: map<string, Task>, us: seq<User>, ts: seq<Task>,
                                      segU: seq<Api.Exchange>, segT: seq<Api.Exchange>, j: nat)
    requires Cycle(log0, log1, users, tasks, us, ts, segU, segT)
    requires j < |segU| && segU[j].request.CreateOrGetUser?
    ensures 0 < j && segU[j - 1].reply.Failed?
    ensures exists u :: u in users.Values && segU[j - 1].request == Api.Request.GetUserById(u.id) && segU[j].request == Api.Request.CreateOrGetUser(u.name)
  {
    CreateFollowsFailedLookup(segU, us, UserLookup, UserCreate, j);
    var u :| u in us && segU[j - 1].request == UserLookup(u) && segU[j].request == UserCreate(u);
    assert u.id in users && users[u.id] == u;
  }

  /** The store's sync-state records after a completed cycle: the one record
      under "sync_state" overwritten with the reading and the online flag. */
  ghost predicate StampedSyncState(state0: map<string, SyncState>, state1: map<string, SyncState>,
                                   readings0: seq<int>, readings1: seq<int>, online: bool)
  {
    && |readings1| == |readings0| + 1 && readings1[..|readings0|] == readings0
    && state1 == state0[SyncStateId := SyncState(SyncStateId, Last(readings1), online)]
  }

  /** A store holding at most the sync-state record holds exactly it afterwards. */
  lemma SingleSyncState(state0: map<string, SyncState>, state1: map<string, SyncState>,
                        readings0: seq<int>, readings1: seq<int>, online: bool)
    requires state0.Keys <= {SyncStateId}
    requires StampedSyncState(state0, state1, readings0, readings1, online)
    ensures state1.Keys == {SyncStateId} && state1[SyncStateId].isOnline == online
  {
  }

  class SyncService {
    var isOnline: bool
    var syncInProgress: bool
    const db: Database
    const api: Api.ApiService
    const clock: Clock

    ghost predicate Valid()
      reads this, db
    {
      db.Valid()
    }

    /** The service starts with the browser's online flag and runs a cycle. */
    constructor (online: bool, db: Database, api: Api.ApiService, clock: Clock)
      requires db.Valid()
      modifies db`connected, db`syncstate, api, clock
      ensures Valid() && isOnline == online && !syncInProgress
      ensures this.db == db && this.api == api && this.clock == clock
      ensures db.tasks == old(db.tasks) && db.users == old(db.users)
      ensures !online ==> api.log == old(api.log) && db.syncstate == old(db.syncstate)
      ensures online && !db.connected ==> api.log == old(api.log) && db.syncstate == old(db.syncstate)
      ensures online && db.connected ==>
        && CycleDone(old(api.log), api.log, old(db.users), old(db.tasks))
        && StampedSyncState(old(db.syncstate), db.syncstate, old(clock.readings), clock.readings, online)
    {
      this.db, this.api, this.clock := db, api, clock;
      isOnline, syncInProgress := online, false;
      new;
      Sync();
    }

    method Sync()
      requires Valid()
      modifies this`syncInProgress, db`connected, db`syncstate, api, clock
      ensures Valid() && db.tasks == old(db.tasks) && db.users == old(db.users)
      ensures !isOnline || old(syncInProgress) ==>
        && syncInProgress == old(syncInProgress) && api.log == old(api.log) && clock.readings == old(clock.readings)
        && db.syncstate == old(db.syncstate) && db.connected == old(db.connected)
      ensures isOnline && !old(syncInProgress) ==> !syncInProgress && (old(db.connected) ==> db.connected)
      ensures isOnline && !old(syncInProgress) && !db.connected ==> api.log == old(api.log) && db.syncstate == old(db.syncstate)
      ensures isOnline && !old(syncInProgress) && db.connected ==>
        && CycleDone(old(api.log), api.log, old(db.users), old(db.tasks))
        && StampedSyncState(old(db.syncstate), db.syncstate, old(clock.readings), clock.readings, isOnline)
    {
      if !isOnline || syncInProgress {
        return;
      }
      syncInProgress := true;
      var st := db.Open();
      if st == Ready {
        PushAll();
        var now := clock.Now();
        db.UpsertSyncState(SyncState(SyncStateId, now, isOnline));
      }
      syncInProgress := false;
    }

    /** The pushes of a cycle once the database is open: the stored users, then
        the stored tasks read newest update first. */
    method PushAll()
      requires Valid() && db.connected && syncInProgress
      modifies api
      ensures CycleDone(old(api.log), api.log, db.users, db.tasks)
    {
      var localTasks := db.FindTasks(TaskQuery(None, UpdatedAtDesc));
      var localUsers := db.AllUsers();
      ghost var segU := PushUsers(localUsers);
      ghost var segT := PushTasks(localTasks);
      assert Cycle(old(api.log), api.log, db.users, db.tasks, localUsers, localTasks, segU, segT);
    }

    /** The user loop of a cycle: each user looked up, and created when missing. */
    method PushUsers(users: seq<User>) returns (ghost seg: seq<Api.Exchange>)
      requires syncInProgress
      modifies api
      ensures api.log == old(api.log) + seg && Rounds(seg, users, UserLookup, UserCreate)
    {
      seg := [];
      for i := 0 to |users|
        invariant api.log == old(api.log) + seg && Rounds(seg, users[..i], UserLookup, UserCreate)
        invariant syncInProgress
      {
        var u := users[i];
        ghost var mark := api.log;
        var found := api.GetUserById(u.id);
        if found.None? {
          var _ := api.CreateOrGetUser(u.name);
        }
        ghost var round := api.log[|mark|..];
        RoundsExtend(seg, users[..i], u, round, UserLookup, UserCreate);
        assert users[..i + 1] == users[..i] + [u];
        seg := seg + round;
      }
      assert users[..|users|] == users;
    }

    /** The task loop of a cycle: each task looked up by its local id, and
        created when missing. */
    method PushTasks(tasks: seq<Task>) returns (ghost seg: seq<Api.Exchange>)
      requires syncInProgress
      modifies api
      ensures api.log == old(api.log) + seg && Rounds(seg, tasks, TaskLookup, TaskCreate)
    {
      seg := [];
      for i := 0 to |tasks|
        invariant api.log == old(api.log) + seg && Rounds(seg, tasks[..i], TaskLookup, TaskCreate)
        invariant syncInProgress
      {
        var t := tasks[i];
        ghost var mark := api.log;
        var found := api.GetTaskById(t.id);
        if found.None? {
          var _ := api.CreateTask(t.userId, TaskRequest(t.title, t.description, t.position));
        }
        ghost var round := api.log[|mark|..];
        RoundsExtend(seg, tasks[..i], t, round, TaskLookup, TaskCreate);
        assert tasks[..i + 1] == tasks[..i] + [t];
        seg := seg + round;
      }
      assert tasks[..|tasks|] == tasks;
    }

    /** The window's `online` event. */
    method OnOnline()
      requires Valid()
      modifies this`isOnline, this`syncInProgress, db`connected, db`syncstate, api, clock
      ensures Valid() && isOnline && db.tasks == old(db.tasks) && db.users == old(db.users)
      ensures old(syncInProgress) ==>
        && syncInProgress && api.log == old(api.log) && clock.readings == old(clock.readings)
        && db.syncstate == old(db.syncstate) && db.connected == old(db.connected)
      ensures !old(syncInProgress) ==> !syncInProgress && (old(db.connected) ==> db.connected)
      ensures !old(syncInProgress) && !db.connected ==> api.log == old(api.log) && db.syncstate == old(db.syncstate)
      ensures !old(syncInProgress) && db.connected ==>
        && CycleDone(old(api.log), api.log, old(db.users), old(db.tasks))
        && StampedSyncState(old(db.syncstate), db.syncstate, old(clock.readings), clock.readings, true)
    {
      isOnline := true;
      Sync();
    }

    /** The window's `offline` event. */
    method OnOffline()
      modifies this`isOnline
      ensures !isOnline
    {
      isOnline := false;
    }

    method PullFromServer(u: string)
      requires Valid()
      modifies db`tasks, db`connected, api
      ensures Valid()
      ensures !isOnline ==> db.tasks == old(db.tasks) && api.log == old(api.log) && db.connected == old(db.connected)
      ensures isOnline && !db.connected ==> db.tasks == old(db.tasks) && api.log == old(api.log)
      ensures isOnline && db.connected ==>
        && Api.Called(old(api.log), api.log, Api.Request.GetTasksByUserId(u))
        && db.tasks == if Last(api.log).reply.GotTasks? then UpsertAll(old(db.tasks), Last(api.log).reply.tasks) else old(db.tasks)
    {
      if !isOnline {
        return;
      }
      var st := db.Open();
      if st == Ready {
        var server := api.GetTasksByUserId(u);
        if server.Some? {
          db.UpsertEach(server.value);
        }
      }
    }
  }
}
