// The local database (RxDB over IndexedDB in the application): three keyed
// collections, the queries the core issues against them, and the singleton
// connection that getDatabase() opens (src/database/index.ts).
module LocalDb {
  import opened Types

  /** The id of the one sync-state record. */
  const SyncStateId: string := "sync_state"

  /** The `sort` of a task query; every sort used here is descending. */
  datatype SortField = Unsorted | CreatedAtDesc | UpdatedAtDesc

  /** A task query: an optional `userId` selector and a sort. */
  datatype TaskQuery = TaskQuery(userId: Option<string>, sort: SortField)

  /** What getDatabase() yields: the database, a schema clash (RxDB error DB6),
      or another failure. */
  datatype OpenStatus = Ready | SchemaMismatch | OpenFailed

  function SortKey(t: Task, f: SortField): int
  {
    match f
    case Unsorted => 0
    case CreatedAtDesc => t.createdAt
    case UpdatedAtDesc => t.updatedAt
  }

  predicate Sorted(ts: seq<Task>, f: SortField)
  {
    forall i, j :: 0 <= i < j < |ts| ==> SortKey(ts[i], f) >= SortKey(ts[j], f)
  }

  predicate IdsDistinct(ts: seq<Task>)
  {
    forall i, j :: 0 <= i < j < |ts| ==> ts[i].id != ts[j].id
  }

  predicate Selects(q: TaskQuery, t: Task)
  {
    q.userId.None? || t.userId == q.userId.value
  }

  /** Every record is stored under its own id (the primary key). */
  ghost predicate TasksKeyed(m: map<string, Task>)
  {
    forall k :: k in m ==> m[k].id == k
  }

  ghost predicate UsersKeyed(m: map<string, User>)
  {
    forall k :: k in m ==> m[k].id == k
  }

  function IdsOf(ts: seq<Task>): set<string>
  {
    set t | t in ts :: t.id
  }

  /** `t` placed into `ts` after every leading task whose key is at least its own. */
  function Insert(ts: seq<Task>, t: Task, f: SortField): (r: seq<Task>)
    ensures multiset(r) == multiset(ts) + multiset{t}
  {
    if ts == [] then [t]
    else if SortKey(ts[0], f) >= SortKey(t, f) then
      assert ts == [ts[0]] + ts[1..];
      [ts[0]] + Insert(ts[1..], t, f)
    else [t] + ts
  }

  lemma {:induction false} InsertSorted(ts: seq<Task>, t: Task, f: SortField)
    requires Sorted(ts, f)
    ensures Sorted(Insert(ts, t, f), f)
  {
    if ts != [] && SortKey(ts[0], f) >= SortKey(t, f) {
      var rest := Insert(ts[1..], t, f);
      InsertSorted(ts[1..], t, f);
      forall j | 0 <= j < |rest|
        ensures SortKey(rest[j], f) <= SortKey(ts[0], f)
      {
        InsertedFrom(ts[1..], t, f, j);
      }
      SortedCons(ts[0], rest, f);
    }
  }

  /** Every element of an insertion result is the inserted task or one of the
      original tasks. */
  lemma InsertedFrom(ts: seq<Task>, t: Task, f: SortField, j: nat)
    requires j < |Insert(ts, t, f)|
    ensures Insert(ts, t, f)[j] == t || Insert(ts, t, f)[j] in ts
  {
    var x := Insert(ts, t, f)[j];
    assert x in multiset(Insert(ts, t, f));
  }

  lemma SortedCons(h: Task, rest: seq<Task>, f: SortField)
    requires Sorted(rest, f)
    requires forall j :: 0 <= j < |rest| ==> SortKey(rest[j], f) <= SortKey(h, f)
    ensures Sorted([h] + rest, f)
  {
  }

  lemma {:induction false} InsertDistinct(ts: seq<Task>, t: Task, f: SortField)
    requires IdsDistinct(ts) && t.id !in IdsOf(ts)
    ensures IdsDistinct(Insert(ts, t, f))
  {
    if ts != [] && SortKey(ts[0], f) >= SortKey(t, f) {
      var rest := Insert(ts[1..], t, f);
      assert IdsOf(ts[1..]) <= IdsOf(ts);
      InsertDistinct(ts[1..], t, f);
      forall j | 0 <= j < |rest|
        ensures rest[j].id != ts[0].id
      {
        InsertedFrom(ts[1..], t, f, j);
      }
      DistinctCons(ts[0], rest);
    }
  }

  lemma DistinctCons(h: Task, rest: seq<Task>)
    requires IdsDistinct(rest)
    requires forall j :: 0 <= j < |rest| ==> rest[j].id != h.id
    ensures IdsDistinct([h] + rest)
  {
  }

  /** The tasks of `ts` ordered by the sort field, largest first. */
  function SortBy(ts: seq<Task>, f: SortField): (r: seq<Task>)
    ensures Sorted(r, f)
    ensures multiset(r) == multiset(ts)
    ensures IdsDistinct(ts) ==> IdsDistinct(r)
  {
    if ts == [] then []
    else
      var init, last := ts[..|ts| - 1], ts[|ts| - 1];
      assert ts == init + [last];
      var sortedInit := SortBy(init, f);
      InsertSorted(sortedInit, last, f);
      SortByDistinct(ts, init, last, sortedInit, f);
      Insert(sortedInit, last, f)
  }

  lemma SortByDistinct(ts: seq<Task>, init: seq<Task>, last: Task, sortedInit: seq<Task>, f: SortField)
    requires ts == init + [last]
    requires multiset(sortedInit) == multiset(init)
    requires IdsDistinct(init) ==> IdsDistinct(sortedInit)
    ensures IdsDistinct(ts) ==> IdsDistinct(Insert(sortedInit, last, f))
  {
    if IdsDistinct(ts) {
      assert IdsDistinct(init) by {
        forall i, j | 0 <= i < j < |init| ensures init[i].id != init[j].id {
          assert init[i] == ts[i] && init[j] == ts[j];
        }
      }
      forall x | x in sortedInit ensures x.id != last.id {
        assert x in multiset(init);
        var i :| 0 <= i < |init| && init[i] == x;
        assert ts[i] == x && ts[|ts| - 1] == last;
      }
      InsertDistinct(sortedInit, last, f);
    }
  }

  /** A query's answer: exactly the stored tasks the selector accepts, each once,
      in the order of the sort. */
  ghost predicate IsQueryResult(r: seq<Task>, m: map<string, Task>, q: TaskQuery)
  {
    && (forall t :: t in r <==> t.id in m && m[t.id] == t && Selects(q, t))
    && Sorted(r, q.sort)
    && IdsDistinct(r)
  }

  /** The tasks in store `m` after `upsert` of each task of `ts` in turn. */
  function UpsertAll(m: map<string, Task>, ts: seq<Task>): (r: map<string, Task>)
    ensures r.Keys == m.Keys + IdsOf(ts)
    ensures forall k :: k in m && k !in IdsOf(ts) ==> r[k] == m[k]
    ensures TasksKeyed(m) ==> TasksKeyed(r)
  {
    if ts == [] then m
    else
      var init, last := ts[..|ts| - 1], ts[|ts| - 1];
      assert ts == init + [last];
      assert IdsOf(ts) == IdsOf(init) + {last.id};
      UpsertAll(m, init)[last.id := last]
  }

  /** Upserting a list overrides the store with the list's own last-wins map. */
  lemma {:induction false} UpsertAllOverrides(m: map<string, Task>, ts: seq<Task>)
    ensures UpsertAll(m, ts) == m + UpsertAll(map[], ts)
  {
    if ts != [] {
      var init, last := ts[..|ts| - 1], ts[|ts| - 1];
      assert ts == init + [last];
      UpsertAllOverrides(m, init);
      var a := UpsertAll(map[], init);
      assert UpsertAll(m, ts) == UpsertAll(m, init)[last.id := last];
      assert UpsertAll(map[], ts) == a[last.id := last];
      OverrideThenUpdate(m, a, last.id, last);
    }
  }

  lemma OverrideThenUpdate(m: map<string, Task>, a: map<string, Task>, k: string, t: Task)
    ensures (m + a)[k := t] == m + a[k := t]
  {
  }

  /** Upsert is idempotent: replaying the same records changes nothing more. */
  lemma UpsertAllIdempotent(m: map<string, Task>, ts: seq<Task>)
    ensures UpsertAll(UpsertAll(m, ts), ts) == UpsertAll(m, ts)
  {
    UpsertAllOverrides(m, ts);
    UpsertAllOverrides(UpsertAll(m, ts), ts);
    var a := UpsertAll(map[], ts);
    assert (m + a) + a == m + a;
  }

  /** A task that no later task of the list shares its id with ends up stored
      under that id: an existing record is overwritten, a missing one inserted. */
  lemma {:induction false} UpsertAllLastWins(m: map<string, Task>, ts: seq<Task>, i: nat)
    requires i < |ts|
    requires forall j :: i < j < |ts| ==> ts[j].id != ts[i].id
    ensures ts[i].id in UpsertAll(m, ts) && UpsertAll(m, ts)[ts[i].id] == ts[i]
  {
    if i < |ts| - 1 {
      UpsertAllLastWins(m, ts[..|ts| - 1], i);
    }
  }

  /** `found` holds the selected tasks of `m` whose ids are no longer in `rest`. */
  ghost predicate Gathered(found: seq<Task>, m: map<string, Task>, rest: set<string>, q: TaskQuery)
  {
    forall t :: t in found <==> t.id in m && t.id !in rest && m[t.id] == t && Selects(q, t)
  }

  lemma SortedGathered(found: seq<Task>, m: map<string, Task>, q: TaskQuery)
    requires Gathered(found, m, {}, q) && IdsDistinct(found)
    ensures IsQueryResult(SortBy(found, q.sort), m, q)
  {
    var r := SortBy(found, q.sort);
    forall t ensures t in r <==> t in found {
      assert t in r <==> t in multiset(r);
    }
  }

  class Database {
    var users: map<string, User>
    var tasks: map<string, Task>
    var syncstate: map<string, SyncState>
    /** Whether the getDatabase() singleton exists. */
    var connected: bool

    ghost predicate Valid()
      reads this
    {
      UsersKeyed(users) && TasksKeyed(tasks) && forall k :: k in syncstate ==> syncstate[k].id == k
    }

    constructor ()
      ensures Valid() && !connected
      ensures users == map[] && tasks == map[] && syncstate == map[]
    {
      users, tasks, syncstate := map[], map[], map[];
      connected := false;
    }

    /** getDatabase(): the existing singleton, or one attempt to create it, which
        may fail with a schema clash or otherwise. */
    method Open() returns (st: OpenStatus)
      modifies this`connected
      ensures old(connected) ==> st == Ready
      ensures connected <==> st == Ready
    {
      if connected {
        st := Ready;
      } else {
        st :| true;
        connected := st == Ready;
      }
    }

    /** tasks.find({selector, sort}).exec() */
    method FindTasks(q: TaskQuery) returns (r: seq<Task>)
      requires Valid()
      ensures IsQueryResult(r, tasks, q)
    {
      var found: seq<Task> := [];
      var rest := tasks.Keys;
      while rest != {}
        invariant rest <= tasks.Keys
        invariant Gathered(found, tasks, rest, q)
        invariant IdsDistinct(found)
        decreases rest
      {
        var k :| k in rest;
        if Selects(q, tasks[k]) {
          found := found + [tasks[k]];
        }
        rest := rest - {k};
      }
      r := SortBy(found, q.sort);
      SortedGathered(found, tasks, q);
    }

    /** users.find().exec(): every stored user once, in no particular order. */
    method AllUsers() returns (r: seq<User>)
      requires Valid()
      ensures forall u :: u in r <==> u.id in users && users[u.id] == u
      ensures forall i, j :: 0 <= i < j < |r| ==> r[i].id != r[j].id
    {
      r := [];
      var rest := users.Keys;
      while rest != {}
        invariant rest <= users.Keys
        invariant forall u :: u in r <==> u.id in users && u.id !in rest && users[u.id] == u
        invariant forall i, j :: 0 <= i < j < |r| ==> r[i].id != r[j].id
        decreases rest
      {
        var k :| k in rest;
        r := r + [users[k]];
        rest := rest - {k};
      }
    }

    /** users.findOne({selector: {name}}).exec(): some user with that name, if any. */
    method FindUserByName(name: string) returns (r: Option<User>)
      requires Valid()
      ensures r.None? <==> forall k :: k in users ==> users[k].name != name
      ensures r.Some? ==> r.value.id in users && users[r.value.id] == r.value && r.value.name == name
    {
      if exists k :: k in users && users[k].name == name {
        var k :| k in users && users[k].name == name;
        r := Some(users[k]);
      } else {
        r := None;
      }
    }

    /** tasks.upsert(t): insert, or overwrite the record with t's id. */
    method Upsert(t: Task)
      requires Valid()
      modifies this`tasks
      ensures Valid() && tasks == old(tasks)[t.id := t]
    {
      tasks := tasks[t.id := t];
    }

    /** `for (const task of ts) await tasks.upsert(task)` */
    method UpsertEach(ts: seq<Task>)
      requires Valid()
      modifies this`tasks
      ensures Valid() && tasks == UpsertAll(old(tasks), ts)
    {
      for i := 0 to |ts|
        invariant Valid() && tasks == UpsertAll(old(tasks), ts[..i])
      {
        assert ts[..i + 1][..i] == ts[..i];
        Upsert(ts[i]);
      }
      assert ts[..|ts|] == ts;
    }

    /** tasks.insert(t), which fails on an id that is already stored. */
    method InsertTask(t: Task) returns (ok: bool)
      requires Valid()
      modifies this`tasks
      ensures Valid()
      ensures ok <==> t.id !in old(tasks)
      ensures tasks == if ok then old(tasks)[t.id := t] else old(tasks)
    {
      ok := t.id !in tasks;
      if ok {
        tasks := tasks[t.id := t];
      }
    }

    /** users.insert(u), which fails on an id that is already stored. */
    method InsertUser(u: User) returns (ok: bool)
      requires Valid()
      modifies this`users
      ensures Valid()
      ensures ok <==> u.id !in old(users)
      ensures users == if ok then old(users)[u.id := u] else old(users)
    {
      ok := u.id !in users;
      if ok {
        users := users[u.id := u];
      }
    }

    /** remove() of the task stored under `id`; nothing happens when there is none. */
    method RemoveTask(id: string)
      requires Valid()
      modifies this`tasks
      ensures Valid() && tasks == old(tasks) - {id}
    {
      tasks := tasks - {id};
    }

    /** syncstate.upsert(s) */
    method UpsertSyncState(s: SyncState)
      requires Valid()
      modifies this`syncstate
      ensures Valid() && syncstate == old(syncstate)[s.id := s]
    {
      syncstate := syncstate[s.id := s];
    }

    /** clearDatabase(): destroy the open singleton, if any, then delete the
        stored data. Only the destroy step can throw, and a throw leaves
        everything as it was; a failed deletion is swallowed. */
    method Clear() returns (ok: bool)
      requires Valid()
      modifies this
      ensures Valid()
      ensures !old(connected) ==> ok
      ensures ok ==> users == map[] && tasks == map[] && syncstate == map[] && !connected
      ensures !ok ==> users == old(users) && tasks == old(tasks) && syncstate == old(syncstate) && connected == old(connected)
    {
      if connected {
        ok :| true;
      } else {
        ok := true;
      }
      if ok {
        users, tasks, syncstate := map[], map[], map[];
        connected := false;
      }
    }
  }
}
