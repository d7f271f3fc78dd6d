// The task board component (src/components/TaskBoard.tsx): the search and
// status filter over the task list, and the handlers that validate and
// normalise user input before handing it to the store.
module Board {
  import opened Types
  import opened Text
  import Seqs
  import opened TaskEdits

  /** The status drop-down: "all" or one status. */
  datatype StatusFilter = All | Only(status: Status)

  /** A description takes part in the search only when it is a non-empty string. */
  predicate MatchesSearch(t: Task, term: string)
  {
    || Contains(Lower(t.title), Lower(term))
    || (t.description.Some? && t.description.value != "" && Contains(Lower(t.description.value), Lower(term)))
  }

  predicate MatchesStatus(t: Task, f: StatusFilter)
  {
    f.All? || t.status == f.status
  }

  /** filteredTasks */
  function FilteredTasks(ts: seq<Task>, term: string, f: StatusFilter): (r: seq<Task>)
    ensures Seqs.Subseq(r, ts)
    ensures forall t :: t in r <==> t in ts && MatchesSearch(t, term) && MatchesStatus(t, f)
    ensures forall t :: multiset(r)[t] == if MatchesSearch(t, term) && MatchesStatus(t, f) then multiset(ts)[t] else 0
  {
    Seqs.FilterCount(ts, (t: Task) => MatchesSearch(t, term) && MatchesStatus(t, f));
    Seqs.Filter(ts, (t: Task) => MatchesSearch(t, term) && MatchesStatus(t, f))
  }

  /** With no search term only the status filter applies; with "all" as
      well the board shows every task. */
  lemma ShowAllWhenUnfiltered(ts: seq<Task>, f: StatusFilter)
    ensures FilteredTasks(ts, "", f) == Seqs.Filter(ts, (t: Task) => MatchesStatus(t, f))
    ensures f.All? ==> FilteredTasks(ts, "", f) == ts
  {
    forall t | t in ts
      ensures MatchesSearch(t, "")
    {
      ContainsEmpty(Lower(t.title));
    }
    Seqs.FilterSameKeep(ts, (t: Task) => MatchesSearch(t, "") && MatchesStatus(t, f),
                            (t: Task) => MatchesStatus(t, f));
    if f.All? {
      Seqs.FilterAll(ts, (t: Task) => MatchesStatus(t, f));
    }
  }

  lemma LowerIdempotent(s: string)
    ensures Lower(Lower(s)) == Lower(s)
  {
  }

  /** The search ignores the case of the term. */
  lemma SearchIgnoresTermCase(ts: seq<Task>, term: string, f: StatusFilter)
    ensures FilteredTasks(ts, Lower(term), f) == FilteredTasks(ts, term, f)
  {
    LowerIdempotent(term);
    Seqs.FilterSameKeep(ts, (t: Task) => MatchesSearch(t, Lower(term)) && MatchesStatus(t, f),
                            (t: Task) => MatchesSearch(t, term) && MatchesStatus(t, f));
  }

  /** `text.trim() || undefined` */
  function OptionalText(s: string): (r: Option<string>)
    ensures r == None <==> AllSpace(s)
    ensures r.Some? ==> r.value == Trim(s) && r.value != ""
  {
    BlankIffAllSpace(s);
    if Trim(s) == "" then None else Some(Trim(s))
  }

  /** The checkbox: a completed item goes back to not-started, any other is completed. */
  function ToggledStatus(s: Status): (r: Status)
    ensures IsDeclaredStatus(r) && r != s
    ensures r == Completed <==> s != Completed
    ensures s == Completed ==> r == NotStarted
  {
    if s == Completed then NotStarted else Completed
  }

  /** Two clicks restore a completed or not-started item. */
  lemma ToggleTwice(s: Status)
    requires s == Completed || s == NotStarted
    ensures ToggledStatus(ToggledStatus(s)) == s
  {
  }

  /** The updates handleSaveEdit sends for the edit fields. */
  function SavePatch(title: string, description: string, status: Status): (p: TaskPatch)
    ensures p.title.Set? && p.description.Set? && p.status.Set? && p.position.Keep?
  {
    TaskPatch(Set(Trim(title)), Set(OptionalText(description)), Set(status), Keep)
  }

  /** Opening a task in the editor and saving without changes gives back the
      task when its title and description are already trimmed and non-empty. */
  lemma EditSaveRoundTrip(t: Task)
    requires Trim(t.title) == t.title
    requires t.description.Some? ==> Trim(t.description.value) == t.description.value && t.description.value != ""
    ensures ApplyPatch(t, SavePatch(t.title, if t.description.Some? then t.description.value else "", t.status)) == t
  {
    if t.description.Some? {
      BlankIffAllSpace(t.description.value);
    } else {
      BlankIffAllSpace("");
    }
  }

  /** A call the board makes into the store (through its props or directly). */
  datatype Outgoing =
    | CreateRequest(title: string, description: Option<string>)
    | UpdateRequest(taskId: string, patch: TaskPatch)
    | AddItemRequest(taskId: string, text: string)
    | UpdateItemRequest(taskId: string, itemId: string, itemPatch: ItemPatch)

  class TaskBoard {
    var searchTerm: string
    var statusFilter: StatusFilter
    var isCreating: bool
    var newTaskTitle: string
    var newTaskDescription: string
    var editingTask: Option<Task>
    var editTaskTitle: string
    var editTaskDescription: string
    var editTaskStatus: Status
    /** The calls made so far, in order. */
    var sent: seq<Outgoing>

    constructor ()
      ensures searchTerm == "" && statusFilter == All && !isCreating && newTaskTitle == "" && newTaskDescription == ""
      ensures editingTask == None && editTaskTitle == "" && editTaskDescription == "" && editTaskStatus == NotStarted
      ensures sent == []
    {
      searchTerm, statusFilter, isCreating := "", All, false;
      newTaskTitle, newTaskDescription := "", "";
      editingTask, editTaskTitle, editTaskDescription, editTaskStatus := None, "", "", NotStarted;
      sent := [];
    }

    method HandleCreateTask()
      modifies this`sent, this`isCreating, this`newTaskTitle, this`newTaskDescription
      ensures Trim(old(newTaskTitle)) == "" ==>
        sent == old(sent) && isCreating == old(isCreating) && newTaskTitle == old(newTaskTitle) && newTaskDescription == old(newTaskDescription)
      ensures Trim(old(newTaskTitle)) != "" ==>
        && sent == old(sent) + [CreateRequest(Trim(old(newTaskTitle)), OptionalText(old(newTaskDescription)))]
        && !isCreating && newTaskTitle == "" && newTaskDescription == ""
    {
      var title := Trim(newTaskTitle);
      if title == "" {
        return;
      }
      sent := sent + [CreateRequest(title, OptionalText(newTaskDescription))];
      isCreating, newTaskTitle, newTaskDescription := false, "", "";
    }

    method HandleAddChecklistItem(taskId: string, text: string)
      modifies this`sent
      ensures Trim(text) == "" ==> sent == old(sent)
      ensures Trim(text) != "" ==> sent == old(sent) + [AddItemRequest(taskId, Trim(text))]
    {
      if Trim(text) == "" {
        return;
      }
      sent := sent + [AddItemRequest(taskId, Trim(text))];
    }

    method HandleEditTask(t: Task)
      modifies this`editingTask, this`editTaskTitle, this`editTaskDescription, this`editTaskStatus
      ensures editingTask == Some(t) && editTaskTitle == t.title && editTaskStatus == t.status
      ensures editTaskDescription == if t.description.Some? then t.description.value else ""
    {
      editingTask, editTaskTitle, editTaskStatus := Some(t), t.title, t.status;
      editTaskDescription := if t.description.Some? then t.description.value else "";
    }

    method HandleSaveEdit()
      modifies this`sent, this`editingTask, this`editTaskTitle, this`editTaskDescription, this`editTaskStatus
      ensures old(editingTask).None? || Trim(old(editTaskTitle)) == "" ==>
        && sent == old(sent) && editingTask == old(editingTask) && editTaskTitle == old(editTaskTitle)
        && editTaskDescription == old(editTaskDescription) && editTaskStatus == old(editTaskStatus)
      ensures old(editingTask).Some? && Trim(old(editTaskTitle)) != "" ==>
        && sent == old(sent) + [UpdateRequest(old(editingTask).value.id, SavePatch(old(editTaskTitle), old(editTaskDescription), old(editTaskStatus)))]
        && editingTask == None && editTaskTitle == "" && editTaskDescription == "" && editTaskStatus == NotStarted
    {
      if editingTask.None? || Trim(editTaskTitle) == "" {
        return;
      }
      sent := sent + [UpdateRequest(editingTask.value.id, SavePatch(editTaskTitle, editTaskDescription, editTaskStatus))];
      editingTask, editTaskTitle, editTaskDescription, editTaskStatus := None, "", "", NotStarted;
    }

    method HandleCancelEdit()
      modifies this`editingTask, this`editTaskTitle, this`editTaskDescription, this`editTaskStatus
      ensures editingTask == None && editTaskTitle == "" && editTaskDescription == "" && editTaskStatus == NotStarted
    {
      editingTask, editTaskTitle, editTaskDescription, editTaskStatus := None, "", "", NotStarted;
    }

    /** The checkbox in front of a checklist item. */
    method ToggleChecklistItem(taskId: string, item: ChecklistItem)
      modifies this`sent
      ensures sent == old(sent) + [UpdateItemRequest(taskId, item.id, ItemPatch(Keep, Set(ToggledStatus(item.status))))]
    {
      sent := sent + [UpdateItemRequest(taskId, item.id, ItemPatch(Keep, Set(ToggledStatus(item.status))))];
    }
  }
}
