// The record transformations the task store applies, identically, to a stored
// task (inside incrementalModify) and to its copy in the in-memory projection
// (src/stores/taskStore.ts:140-153, 207-236, 250-272, 293-310).
module TaskEdits {
  import opened Types
  import Seqs
  import opened LocalDb

  function Merge<T>(f: Field<T>, v: T): T
  {
    if f.Set? then f.value else v
  }

  /** Object.assign(task, updates): every field the patch carries replaces the
      task's own. */
  function ApplyPatch(t: Task, p: TaskPatch): (r: Task)
    ensures r.id == t.id && r.userId == t.userId && r.checklist == t.checklist
    ensures r.createdAt == t.createdAt && r.updatedAt == t.updatedAt
  {
    t.(title := Merge(p.title, t.title),
       description := Merge(p.description, t.description),
       status := Merge(p.status, t.status),
       position := Merge(p.position, t.position))
  }

  /** The patch that has the effect of `p` followed by `q`. */
  function Then(p: TaskPatch, q: TaskPatch): TaskPatch
  {
    TaskPatch(
      if q.title.Set? then q.title else p.title,
      if q.description.Set? then q.description else p.description,
      if q.status.Set? then q.status else p.status,
      if q.position.Set? then q.position else p.position)
  }

  /** Two successive updates amount to one merged update; in particular
      repeating an update changes nothing more. */
  lemma ApplyPatchThen(t: Task, p: TaskPatch, q: TaskPatch)
    ensures ApplyPatch(ApplyPatch(t, p), q) == ApplyPatch(t, Then(p, q))
    ensures ApplyPatch(ApplyPatch(t, p), p) == ApplyPatch(t, p)
  {
  }

  /** {...item, ...updates} */
  function PatchItem(it: ChecklistItem, p: ItemPatch): (r: ChecklistItem)
    ensures r.id == it.id && r.createdAt == it.createdAt
  {
    it.(text := Merge(p.text, it.text), status := Merge(p.status, it.status))
  }

  /** checklist.map(item => item.id === itemId ? {...item, ...updates} : item) */
  function ReviseItems(items: seq<ChecklistItem>, itemId: string, p: ItemPatch): (r: seq<ChecklistItem>)
    ensures |r| == |items|
    ensures forall i :: 0 <= i < |r| ==> r[i].id == items[i].id && r[i].createdAt == items[i].createdAt
    ensures forall i :: 0 <= i < |r| && items[i].id != itemId ==> r[i] == items[i]
  {
    seq(|items|, i requires 0 <= i < |items| => if items[i].id == itemId then PatchItem(items[i], p) else items[i])
  }

  /** Revising twice with the same updates is revising once. */
  lemma ReviseItemsIdempotent(items: seq<ChecklistItem>, itemId: string, p: ItemPatch)
    ensures ReviseItems(ReviseItems(items, itemId, p), itemId, p) == ReviseItems(items, itemId, p)
  {
    var once := ReviseItems(items, itemId, p);
    var twice := ReviseItems(once, itemId, p);
    forall i | 0 <= i < |items|
      ensures twice[i] == once[i]
    {
      if items[i].id == itemId {
        assert once[i] == PatchItem(items[i], p);
      }
    }
  }

  /** checklist.filter(item => item.id !== itemId) */
  function RemoveItems(items: seq<ChecklistItem>, itemId: string): (r: seq<ChecklistItem>)
    ensures forall it :: it in r <==> it in items && it.id != itemId
    ensures Seqs.Subseq(r, items)
    ensures forall it :: multiset(r)[it] == if it.id != itemId then multiset(items)[it] else 0
  {
    Seqs.FilterCount(items, (it: ChecklistItem) => it.id != itemId);
    Seqs.Filter(items, (it: ChecklistItem) => it.id != itemId)
  }

  /** Deleting a just-added item whose id no other item has restores the list. */
  lemma RemoveAfterAppend(items: seq<ChecklistItem>, it: ChecklistItem)
    requires forall x :: x in items ==> x.id != it.id
    ensures RemoveItems(items + [it], it.id) == items
  {
    var keep := (x: ChecklistItem) => x.id != it.id;
    Seqs.FilterConcat(items, [it], keep);
    Seqs.FilterAll(items, keep);
    assert Seqs.Filter([it], keep) == [];
  }

  /** One modification of a task, as done by updateTask, addChecklistItem,
      updateChecklistItem and deleteChecklistItem. */
  datatype Edit =
    | Assign(patch: TaskPatch)
    | AppendItem(item: ChecklistItem)
    | ReviseItem(itemId: string, itemPatch: ItemPatch)
    | DropItem(itemId: string)

  /** The edit applied to `t`, with `updatedAt` set to the clock reading `now`. */
  function ApplyEdit(t: Task, e: Edit, now: int): (r: Task)
    ensures r.id == t.id && r.userId == t.userId && r.createdAt == t.createdAt && r.updatedAt == now
    ensures !e.Assign? ==> r.title == t.title && r.description == t.description && r.status == t.status && r.position == t.position
    ensures e.AppendItem? ==> |r.checklist| == |t.checklist| + 1 && r.checklist[..|t.checklist|] == t.checklist && r.checklist[|t.checklist|] == e.item
    ensures e.ReviseItem? ==> |r.checklist| == |t.checklist|
  {
    match e
    case Assign(p) => ApplyPatch(t, p).(updatedAt := now)
    case AppendItem(it) => t.(checklist := t.checklist + [it], updatedAt := now)
    case ReviseItem(itemId, p) => t.(checklist := ReviseItems(t.checklist, itemId, p), updatedAt := now)
    case DropItem(itemId) => t.(checklist := RemoveItems(t.checklist, itemId), updatedAt := now)
  }

  /** state.tasks.map(t => t.id === taskId ? edited(t) : t) */
  function EditTasks(ts: seq<Task>, id: string, e: Edit, now: int): (r: seq<Task>)
    ensures |r| == |ts|
    ensures forall i :: 0 <= i < |r| ==> r[i].id == ts[i].id && r[i].userId == ts[i].userId && r[i].createdAt == ts[i].createdAt
    ensures forall i :: 0 <= i < |r| && ts[i].id != id ==> r[i] == ts[i]
  {
    seq(|ts|, i requires 0 <= i < |ts| => if ts[i].id == id then ApplyEdit(ts[i], e, now) else ts[i])
  }

  /** state.tasks.filter(t => t.id !== taskId) */
  function WithoutTask(ts: seq<Task>, id: string): (r: seq<Task>)
    ensures forall t :: t in r <==> t in ts && t.id != id
    ensures Seqs.Subseq(r, ts)
    ensures forall t :: multiset(r)[t] == if t.id != id then multiset(ts)[t] else 0
  {
    Seqs.FilterCount(ts, (t: Task) => t.id != id);
    Seqs.Filter(ts, (t: Task) => t.id != id)
  }

  /** Filtering keeps a sorted list sorted. */
  lemma {:induction false} FilterKeepsSorted(ts: seq<Task>, keep: Task -> bool, f: SortField)
    requires Sorted(ts, f)
    ensures Sorted(Seqs.Filter(ts, keep), f)
  {
    if ts != [] {
      var rest := Seqs.Filter(ts[1..], keep);
      FilterKeepsSorted(ts[1..], keep, f);
      if keep(ts[0]) {
        forall j | 0 <= j < |rest|
          ensures SortKey(rest[j], f) <= SortKey(ts[0], f)
        {
          assert rest[j] in ts[1..];
        }
      }
    }
  }

  /** Filtering keeps the ids of a list distinct. */
  lemma {:induction false} FilterKeepsDistinct(ts: seq<Task>, keep: Task -> bool)
    requires IdsDistinct(ts)
    ensures IdsDistinct(Seqs.Filter(ts, keep))
  {
    if ts != [] {
      var rest := Seqs.Filter(ts[1..], keep);
      FilterKeepsDistinct(ts[1..], keep);
      if keep(ts[0]) {
        forall j | 0 <= j < |rest|
          ensures rest[j].id != ts[0].id
        {
          assert rest[j] in ts[1..];
        }
      }
    }
  }

  /** An edit applied to a stored task and to the projection keeps the
      projection equal to the answer of the store query it came from (the
      edit leaves the owner and the creation time, hence the order, alone). */
  lemma EditKeepsQuery(ts: seq<Task>, m: map<string, Task>, q: TaskQuery, id: string, e: Edit, now: int)
    requires IsQueryResult(ts, m, q) && id in m && m[id].id == id
    requires q.sort != UpdatedAtDesc
    ensures IsQueryResult(EditTasks(ts, id, e, now), m[id := ApplyEdit(m[id], e, now)], q)
  {
    var r := EditTasks(ts, id, e, now);
    var t' := ApplyEdit(m[id], e, now);
    forall i | 0 <= i < |r| && ts[i].id == id
      ensures r[i] == t'
    {
      assert ts[i] in ts;
    }
    ReplacedMembers(ts, r, m, q, id, t');
    SameKeysSameOrder(ts, r, q.sort);
  }

  /** Replacing the record under `id` in the store and in the projection, by
      one that keeps its id and owner, keeps the projection's members equal
      to the selected records of the store. */
  lemma ReplacedMembers(ts: seq<Task>, r: seq<Task>, m: map<string, Task>, q: TaskQuery, id: string, t': Task)
    requires forall t :: t in ts <==> t.id in m && m[t.id] == t && Selects(q, t)
    requires id in m && m[id].id == id && t'.id == id && t'.userId == m[id].userId && |r| == |ts|
    requires forall i :: 0 <= i < |r| ==> if ts[i].id == id then r[i] == t' else r[i] == ts[i]
    ensures forall t :: t in r <==> t.id in m[id := t'] && m[id := t'][t.id] == t && Selects(q, t)
  {
    var m' := m[id := t'];
    forall t
      ensures t in r <==> t.id in m' && m'[t.id] == t && Selects(q, t)
    {
      if t in r {
        var i :| 0 <= i < |r| && r[i] == t;
        assert ts[i] in ts;
      }
      if t.id in m' && m'[t.id] == t && Selects(q, t) {
        var old_t := m[t.id];
        assert Selects(q, old_t);
        assert old_t in ts;
        var i :| 0 <= i < |ts| && ts[i] == old_t;
        assert r[i] == t;
      }
    }
  }

  /** A list with the same ids, owners and creation times position by position
      keeps a sort order that does not look at updatedAt, and distinct ids. */
  lemma SameKeysSameOrder(ts: seq<Task>, r: seq<Task>, f: SortField)
    requires Sorted(ts, f) && IdsDistinct(ts) && f != UpdatedAtDesc && |r| == |ts|
    requires forall i :: 0 <= i < |r| ==> r[i].id == ts[i].id && r[i].createdAt == ts[i].createdAt
    ensures Sorted(r, f) && IdsDistinct(r)
  {
    assert forall i :: 0 <= i < |r| ==> SortKey(r[i], f) == SortKey(ts[i], f);
  }

  /** Deleting a task from the store and from the projection keeps the
      projection equal to the answer of the store query it came from. */
  lemma DeleteKeepsQuery(ts: seq<Task>, m: map<string, Task>, q: TaskQuery, id: string)
    requires IsQueryResult(ts, m, q)
    ensures IsQueryResult(WithoutTask(ts, id), m - {id}, q)
  {
    FilterKeepsSorted(ts, (t: Task) => t.id != id, q.sort);
    FilterKeepsDistinct(ts, (t: Task) => t.id != id);
  }

  /** addChecklistItem mints one id for the stored item and another for the
      projection's item: once they differ, the two copies of the task differ. */
  lemma AppendedItemsDiverge(t: Task, stored: ChecklistItem, shown: ChecklistItem, now: int)
    requires stored.id != shown.id
    ensures ApplyEdit(t, AppendItem(stored), now) != ApplyEdit(t, AppendItem(shown), now)
  {
    var a := ApplyEdit(t, AppendItem(stored), now);
    var b := ApplyEdit(t, AppendItem(shown), now);
    assert a.checklist[|t.checklist|] != b.checklist[|t.checklist|];
  }
}
