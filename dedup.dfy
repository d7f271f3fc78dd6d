// cleanupDuplicates (src/stores/taskStore.ts:318-361): a user's stored tasks are
// grouped by the key `${title}|${description || ''}`; in every group of two or
// more, the task with the latest `updatedAt` is kept and the others removed.
module Dedup {
  import opened Types
  import opened LocalDb

  function DescOrEmpty(t: Task): string
  {
    if t.description.Some? then t.description.value else ""
  }

  /** The grouping key; a missing and an empty description give the same key. */
  function DedupKey(t: Task): string
  {
    t.title + "|" + DescOrEmpty(t)
  }

  /** When neither title contains '|', the key tells title and description apart. */
  lemma DedupKeyInjectiveWithoutBar(a: Task, b: Task)
    requires '|' !in a.title && '|' !in b.title
    requires DedupKey(a) == DedupKey(b)
    ensures a.title == b.title && DescOrEmpty(a) == DescOrEmpty(b)
  {
    BarAfterTitle(a);
    BarAfterTitle(b);
    var ka, kb := DedupKey(a), DedupKey(b);
    assert |a.title| == |b.title|;
    assert a.title == ka[..|a.title|] == kb[..|b.title|] == b.title;
    assert DescOrEmpty(a) == ka[|a.title| + 1..] == kb[|b.title| + 1..] == DescOrEmpty(b);
  }

  /** Without a '|' in the title, the key's first '|' ends the title. */
  lemma BarAfterTitle(t: Task)
    requires '|' !in t.title
    ensures |t.title| < |DedupKey(t)| && DedupKey(t)[|t.title|] == '|'
    ensures forall i :: 0 <= i < |t.title| ==> DedupKey(t)[i] != '|'
  {
    assert forall i :: 0 <= i < |t.title| ==> DedupKey(t)[i] == t.title[i];
  }

  /** With a '|' in a title the key is not injective: "a|b" without description
      and "a" with description "b|" collide. */
  lemma DedupKeyCollision()
    ensures DedupKey(Task("t1", "u", "a|b", None, NotStarted, None, [], 0, 0))
         == DedupKey(Task("t2", "u", "a", Some("b|"), NotStarted, None, [], 0, 0))
  {
  }

  /** Every record of `after` is an unchanged record of `before`. */
  ghost predicate OnlyRemoved(before: map<string, Task>, after: map<string, Task>)
  {
    forall k :: k in after ==> k in before && after[k] == before[k]
  }

  ghost predicate OthersKept(before: map<string, Task>, after: map<string, Task>, u: string)
  {
    forall k :: k in before && before[k].userId != u ==> k in after
  }

  /** `s` is a task of `u` left in `after` with the key of the task stored under
      `k` in `before`, and an `updatedAt` no earlier than that task's. */
  ghost predicate SurvivorOf(before: map<string, Task>, after: map<string, Task>, u: string, k: string, s: string)
    requires k in before
  {
    s in after && after[s].userId == u && DedupKey(after[s]) == DedupKey(before[k]) && after[s].updatedAt >= before[k].updatedAt
  }

  /** No two tasks of `u` share a key. */
  ghost predicate NoDuplicates(m: map<string, Task>, u: string)
  {
    forall a, b :: a in m && b in m && a != b && m[a].userId == u && m[b].userId == u ==> DedupKey(m[a]) != DedupKey(m[b])
  }

  /** `after` is `before` with u's duplicates removed, keeping a newest task of
      every key and every task of every other user. */
  ghost predicate Deduplicated(before: map<string, Task>, after: map<string, Task>, u: string)
  {
    && OnlyRemoved(before, after)
    && OthersKept(before, after, u)
    && (forall k :: k in before && before[k].userId == u ==> exists s :: SurvivorOf(before, after, u, k, s))
    && NoDuplicates(after, u)
  }

  /** On a store without duplicates the cleanup removes nothing. */
  lemma DedupNoopWhenClean(m: map<string, Task>, after: map<string, Task>, u: string)
    requires NoDuplicates(m, u) && Deduplicated(m, after, u)
    ensures after == m
  {
    forall k | k in m
      ensures k in after
    {
      if m[k].userId == u {
        var s :| SurvivorOf(m, after, u, k, s);
        assert s == k;
      }
    }
    assert after.Keys == m.Keys;
  }

  /** A second cleanup removes nothing. */
  lemma DedupIdempotent(m: map<string, Task>, once: map<string, Task>, twice: map<string, Task>, u: string)
    requires Deduplicated(m, once, u) && Deduplicated(once, twice, u)
    ensures twice == once
  {
    DedupNoopWhenClean(once, twice, u);
  }

  /** Because of the key collision, cleanup deletes one of two different tasks. */
  lemma CollisionLosesATask(after: map<string, Task>)
    requires
      var a := Task("t1", "u", "a|b", None, NotStarted, None, [], 0, 0);
      var b := Task("t2", "u", "a", Some("b|"), NotStarted, None, [], 0, 0);
      Deduplicated(map["t1" := a, "t2" := b], after, "u")
    ensures |after.Keys| == 1
  {
    var a := Task("t1", "u", "a|b", None, NotStarted, None, [], 0, 0);
    var b := Task("t2", "u", "a", Some("b|"), NotStarted, None, [], 0, 0);
    var m := map["t1" := a, "t2" := b];
    DedupKeyCollision();
    assert !("t1" in after && "t2" in after);
    var s :| SurvivorOf(m, after, "u", "t1", s);
    assert after.Keys <= {"t1", "t2"};
    if "t1" in after {
      assert after.Keys == {"t1"};
    } else {
      assert after.Keys == {"t2"};
    }
  }

  /** The server upsert that follows the cleanup in fetchTasks can bring
      duplicates back: two server tasks with one key land in a clean store. */
  lemma UpsertAfterCleanupCanDuplicate()
    ensures
      var t1 := Task("s1", "u", "Pour slab", None, NotStarted, None, [], 0, 0);
      var t2 := Task("s2", "u", "Pour slab", None, NotStarted, None, [], 0, 1);
      NoDuplicates(map[], "u") && !NoDuplicates(UpsertAll(map[], [t1, t2]), "u")
  {
    var t1 := Task("s1", "u", "Pour slab", None, NotStarted, None, [], 0, 0);
    var t2 := Task("s2", "u", "Pour slab", None, NotStarted, None, [], 0, 1);
    assert [t1][..0] == [];
    assert UpsertAll(map[], [t1]) == map["s1" := t1];
    assert [t1, t2][..1] == [t1];
    var m := UpsertAll(map[], [t1, t2]);
    assert m == map["s1" := t1, "s2" := t2];
    assert "s1" in m && "s2" in m && DedupKey(m["s1"]) == DedupKey(m["s2"]);
  }

  /** new Map<string, Task[]>() filled by allTasks.forEach: the tasks of `all`
      grouped by key. */
  method GroupByKey(all: seq<Task>) returns (groups: map<string, seq<Task>>)
    ensures forall k :: k in groups ==> groups[k] != []
    ensures forall k, t :: k in groups && t in groups[k] ==> t in all && DedupKey(t) == k
    ensures forall t :: t in all ==> DedupKey(t) in groups && t in groups[DedupKey(t)]
    ensures IdsDistinct(all) ==> forall k :: k in groups ==> IdsDistinct(groups[k])
  {
    groups := map[];
    for i := 0 to |all|
      invariant forall k :: k in groups ==> groups[k] != []
      invariant forall k, t :: k in groups && t in groups[k] ==> t in all[..i] && DedupKey(t) == k
      invariant forall t :: t in all[..i] ==> DedupKey(t) in groups && t in groups[DedupKey(t)]
      invariant IdsDistinct(all) ==> forall k :: k in groups ==> IdsDistinct(groups[k])
    {
      var t := all[i];
      var k := DedupKey(t);
      var g := if k in groups then groups[k] else [];
      if IdsDistinct(all) {
        forall x | x in g
          ensures x.id != t.id
        {
          assert x in all[..i];
          var j :| 0 <= j < i && all[..i][j] == x;
          assert all[j] == x;
        }
      }
      groups := groups[k := g + [t]];
      assert all[..i + 1] == all[..i] + [t];
    }
    assert all[..|all|] == all;
  }

  /** Removal of each of `ts` by id, absent ids being skipped. */
  method RemoveTasks(db: Database, ts: seq<Task>)
    requires db.Valid()
    modifies db`tasks
    ensures db.Valid() && db.tasks == old(db.tasks) - IdsOf(ts)
  {
    for i := 0 to |ts|
      invariant db.Valid() && db.tasks == old(db.tasks) - IdsOf(ts[..i])
    {
      assert ts[..i + 1] == ts[..i] + [ts[i]];
      assert IdsOf(ts[..i + 1]) == IdsOf(ts[..i]) + {ts[i].id};
      db.RemoveTask(ts[i].id);
    }
    assert ts[..|ts|] == ts;
  }

  /** The state of the cleanup loop once the keys outside `rest` are done. */
  ghost predicate Progress(before: map<string, Task>, m: map<string, Task>, all: seq<Task>, u: string, rest: set<string>)
  {
    && OnlyRemoved(before, m)
    && OthersKept(before, m, u)
    && (forall t :: t in all && DedupKey(t) in rest ==> t.id in m)
    && (forall t :: t in all && DedupKey(t) !in rest ==> t.id in before && exists s :: SurvivorOf(before, m, u, t.id, s))
    && (forall a, b ::
          a in m && b in m && m[a].userId == u && m[b].userId == u && DedupKey(m[a]) !in rest && DedupKey(m[a]) == DedupKey(m[b])
          ==> a == b)
  }

  /** `all` is the answer to the query for u's tasks. */
  ghost predicate TasksOf(all: seq<Task>, before: map<string, Task>, u: string)
  {
    TasksKeyed(before) && IsQueryResult(all, before, TaskQuery(Some(u), Unsorted))
  }

  lemma ProgressInit(before: map<string, Task>, all: seq<Task>, u: string, keys: set<string>)
    requires TasksOf(all, before, u)
    requires forall t :: t in all ==> DedupKey(t) in keys
    ensures Progress(before, before, all, u, keys)
  {
    forall a | a in before && before[a].userId == u
      ensures DedupKey(before[a]) in keys
    {
      assert before[a] in all;
    }
  }

  /** What removing all members of group `k` but `survivor` does to the store. */
  lemma StepFacts(before: map<string, Task>, m: map<string, Task>, m': map<string, Task>, all: seq<Task>,
                  u: string, rest: set<string>, k: string, g: seq<Task>, survivor: Task)
    requires TasksOf(all, before, u) && Progress(before, m, all, u, rest)
    requires k in rest
    requires forall t :: t in g <==> t in all && DedupKey(t) == k
    requires survivor in g
    requires m' == m - (IdsOf(g) - {survivor.id})
    ensures OnlyRemoved(m, m')
    ensures forall id :: id in m && id !in m' ==> id in before && before[id].userId == u && DedupKey(before[id]) == k
    ensures survivor.id in m' && m'[survivor.id] == survivor
    ensures forall a :: a in m' && m'[a].userId == u && DedupKey(m'[a]) == k ==> a == survivor.id
  {
    forall id | id in m && id !in m'
      ensures id in before && before[id].userId == u && DedupKey(before[id]) == k
    {
      var t :| t in g && t.id == id;
    }
    forall a | a in m' && m'[a].userId == u && DedupKey(m'[a]) == k
      ensures a == survivor.id
    {
      assert before[a] in all;
      assert before[a] in g;
    }
  }

  /** Progress moves past key `k` once its group is down to its newest member. */
  lemma StepProgress(before: map<string, Task>, m: map<string, Task>, m': map<string, Task>, all: seq<Task>,
                     u: string, rest: set<string>, k: string, survivor: Task)
    requires TasksOf(all, before, u) && Progress(before, m, all, u, rest)
    requires k in rest
    requires survivor in all && DedupKey(survivor) == k
    requires forall t :: t in all && DedupKey(t) == k ==> t.updatedAt <= survivor.updatedAt
    requires OnlyRemoved(m, m')
    requires forall id :: id in m && id !in m' ==> id in before && before[id].userId == u && DedupKey(before[id]) == k
    requires survivor.id in m' && m'[survivor.id] == survivor
    requires forall a :: a in m' && m'[a].userId == u && DedupKey(m'[a]) == k ==> a == survivor.id
    ensures Progress(before, m', all, u, rest - {k})
  {
    StepSurvivors(before, m, m', all, u, rest, k, survivor);
  }

  lemma StepSurvivors(before: map<string, Task>, m: map<string, Task>, m': map<string, Task>, all: seq<Task>,
                      u: string, rest: set<string>, k: string, survivor: Task)
    requires TasksOf(all, before, u) && Progress(before, m, all, u, rest)
    requires k in rest
    requires survivor in all && DedupKey(survivor) == k
    requires forall t :: t in all && DedupKey(t) == k ==> t.updatedAt <= survivor.updatedAt
    requires OnlyRemoved(m, m')
    requires forall id :: id in m && id !in m' ==> id in before && before[id].userId == u && DedupKey(before[id]) == k
    requires survivor.id in m' && m'[survivor.id] == survivor
    ensures forall t :: t in all && DedupKey(t) !in rest - {k} ==> t.id in before && exists s :: SurvivorOf(before, m', u, t.id, s)
  {
    forall t | t in all && DedupKey(t) !in rest - {k}
      ensures t.id in before && exists s :: SurvivorOf(before, m', u, t.id, s)
    {
      if DedupKey(t) == k {
        assert SurvivorOf(before, m', u, t.id, survivor.id);
      } else {
        var s :| SurvivorOf(before, m, u, t.id, s);
        assert SurvivorOf(before, m', u, t.id, s);
      }
    }
  }

  lemma Finished(before: map<string, Task>, m: map<string, Task>, all: seq<Task>, u: string)
    requires TasksOf(all, before, u) && Progress(before, m, all, u, {})
    ensures Deduplicated(before, m, u)
  {
    forall k | k in before && before[k].userId == u
      ensures exists s :: SurvivorOf(before, m, u, k, s)
    {
      assert before[k] in all;
    }
  }

  /** The removal part of cleanupDuplicates, on an open database. */
  method RemoveDuplicates(db: Database, u: string)
    requires db.Valid()
    modifies db`tasks
    ensures db.Valid() && Deduplicated(old(db.tasks), db.tasks, u)
  {
    ghost var before := db.tasks;
    var all := db.FindTasks(TaskQuery(Some(u), Unsorted));
    var groups := GroupByKey(all);
    var rest := groups.Keys;
    ProgressInit(before, all, u, rest);
    while rest != {}
      invariant db.Valid()
      invariant rest <= groups.Keys
      invariant Progress(before, db.tasks, all, u, rest)
      decreases rest
    {
      var k :| k in rest;
      var g := groups[k];
      ghost var m := db.tasks;
      ghost var survivor := ResolveGroup(db, g);
      StepFacts(before, m, db.tasks, all, u, rest, k, g, survivor);
      StepProgress(before, m, db.tasks, all, u, rest, k, survivor);
      rest := rest - {k};
    }
    Finished(before, db.tasks, all, u);
  }

  /** One group of the cleanup: when it has more than one member, it is sorted
      by `updatedAt`, newest first, and all but the first are removed. */
  method ResolveGroup(db: Database, g: seq<Task>) returns (ghost survivor: Task)
    requires db.Valid() && g != [] && IdsDistinct(g)
    modifies db`tasks
    ensures db.Valid()
    ensures survivor in g && forall t :: t in g ==> t.updatedAt <= survivor.updatedAt
    ensures db.tasks == old(db.tasks) - (IdsOf(g) - {survivor.id})
  {
    survivor := g[0];
    if |g| > 1 {
      var sorted := SortBy(g, UpdatedAtDesc);
      RemoveTasks(db, sorted[1..]);
      survivor := sorted[0];
      NewestFirst(g, sorted);
      TailIds(g, sorted);
    } else {
      assert g == [g[0]];
      assert IdsOf(g) == {g[0].id};
    }
  }

  /** The head of the group sorted by `updatedAt` is a newest member. */
  lemma NewestFirst(g: seq<Task>, sorted: seq<Task>)
    requires sorted == SortBy(g, UpdatedAtDesc) && sorted != []
    ensures sorted[0] in g && forall t :: t in g ==> t.updatedAt <= sorted[0].updatedAt
  {
    assert sorted[0] in multiset(sorted);
    forall t | t in g
      ensures t.updatedAt <= sorted[0].updatedAt
    {
      assert t in multiset(sorted);
      var i :| 0 <= i < |sorted| && sorted[i] == t;
    }
  }

  lemma SameElementsSameIds(a: seq<Task>, b: seq<Task>)
    requires forall x :: x in a <==> x in b
    ensures IdsOf(a) == IdsOf(b)
  {
  }

  lemma IdsOfCons(s: seq<Task>)
    requires s != [] && IdsDistinct(s)
    ensures IdsOf(s[1..]) == IdsOf(s) - {s[0].id}
  {
    assert s == [s[0]] + s[1..];
    forall t | t in s[1..]
      ensures t.id != s[0].id
    {
      var i :| 0 <= i < |s[1..]| && s[1..][i] == t;
      assert s[i + 1] == t;
    }
  }

  /** The tail of the sorted group holds the ids of all other members. */
  lemma TailIds(g: seq<Task>, sorted: seq<Task>)
    requires sorted == SortBy(g, UpdatedAtDesc) && IdsDistinct(g) && sorted != []
    ensures IdsOf(sorted[1..]) == IdsOf(g) - {sorted[0].id}
  {
    forall x
      ensures x in sorted <==> x in g
    {
      assert x in sorted <==> x in multiset(sorted);
    }
    SameElementsSameIds(sorted, g);
    IdsOfCons(sorted);
  }
}
