// The records of the task board (src/types/index.ts), with timestamps as
// integers read from an injected clock.
module Types {

  datatype Option<+T> = None | Some(value: T)

  /** A task or checklist-item status. The board's menus offer FinalCheckAwaiting,
      but the declared TaskStatus and ChecklistStatus unions do not contain it. */
  datatype Status = NotStarted | InProgress | Blocked | FinalCheckAwaiting | Completed

  /** The string each status is stored and sent as. */
  function StatusName(s: Status): string
  {
    match s
    case NotStarted => "not-started"
    case InProgress => "in-progress"
    case Blocked => "blocked"
    case FinalCheckAwaiting => "final-check-awaiting"
    case Completed => "completed"
  }

  /** Membership in the TaskStatus / ChecklistStatus union types. */
  predicate IsDeclaredStatus(s: Status)
  {
    s != FinalCheckAwaiting
  }

  /** A pixel position on the floor plan. */
  datatype Position = Position(x: real, y: real)

  datatype ChecklistItem = ChecklistItem(id: string, text: string, status: Status, createdAt: int)

  datatype Task = Task(
    id: string,
    userId: string,
    title: string,
    description: Option<string>,
    status: Status,
    position: Option<Position>,
    checklist: seq<ChecklistItem>,
    createdAt: int,
    updatedAt: int)

  datatype User = User(id: string, name: string, createdAt: int)

  datatype SyncState = SyncState(id: string, lastSync: int, isOnline: bool)

  /** The body of a task-creation request (CreateTaskRequest). */
  datatype TaskRequest = TaskRequest(title: string, description: Option<string>, position: Option<Position>)

  /** One property of a JavaScript partial object: absent, or present with a value
      (which, for an optional field, may be `undefined`, written None). */
  datatype Field<T> = Keep | Set(value: T)

  /** The updates callers pass to updateTask (UpdateTaskRequest's fields). */
  datatype TaskPatch = TaskPatch(
    title: Field<string>,
    description: Field<Option<string>>,
    status: Field<Status>,
    position: Field<Option<Position>>)

  /** The updates callers pass to updateChecklistItem. */
  datatype ItemPatch = ItemPatch(text: Field<string>, status: Field<Status>)

  /** `prefix` is a prefix of `s`. */
  predicate HasPrefix(s: string, prefix: string)
  {
    |prefix| <= |s| && s[..|prefix|] == prefix
  }
}
