// The local database's declared record schemas (src/database/schema.ts) as
// validity predicates over JSON-like documents whose properties may be missing,
// and the conversion between those documents and the typed records.
module Schema {
  import opened Types

  const IdMaxLength: nat := 100
  const NameMaxLength: nat := 100
  const TitleMaxLength: nat := 200
  const DescriptionMaxLength: nat := 1000
  const ItemTextMaxLength: nat := 500

  /** The `enum` of every `status` property: "final-check-awaiting" is not in it. */
  const StatusEnum: seq<string> := ["not-started", "in-progress", "blocked", "completed"]

  /** Stored documents; None is a property that is absent. */
  datatype UserDoc = UserDoc(id: Option<string>, name: Option<string>, createdAt: Option<int>)

  datatype ItemDoc = ItemDoc(id: Option<string>, text: Option<string>, status: Option<string>, createdAt: Option<int>)

  datatype TaskDoc = TaskDoc(
    id: Option<string>,
    userId: Option<string>,
    title: Option<string>,
    description: Option<string>,
    status: Option<string>,
    position: Option<Position>,
    checklist: Option<seq<ItemDoc>>,
    createdAt: Option<int>,
    updatedAt: Option<int>)

  datatype SyncStateDoc = SyncStateDoc(id: Option<string>, lastSync: Option<int>, isOnline: Option<bool>)

  /** `maxLength`: a string property, when present, is at most `max` characters long. */
  predicate AtMost(f: Option<string>, max: nat)
  {
    f.None? || |f.value| <= max
  }

  /** `enum`: a status property, when present, is one of StatusEnum. */
  predicate InStatusEnum(f: Option<string>)
  {
    f.None? || f.value in StatusEnum
  }

  /** userSchema: id, name and createdAt are required; id and name are at most 100 long. */
  predicate ValidUserDoc(d: UserDoc)
  {
    && d.id.Some? && d.name.Some? && d.createdAt.Some?
    && AtMost(d.id, IdMaxLength) && AtMost(d.name, NameMaxLength)
  }

  /** The items of taskSchema's checklist array. */
  predicate ValidItemDoc(d: ItemDoc)
  {
    && d.id.Some? && d.text.Some? && d.status.Some? && d.createdAt.Some?
    && AtMost(d.id, IdMaxLength) && AtMost(d.text, ItemTextMaxLength) && InStatusEnum(d.status)
  }

  /** taskSchema: id, userId, title, status, checklist, createdAt and updatedAt are
      required; description and position are optional. */
  predicate ValidTaskDoc(d: TaskDoc)
  {
    && d.id.Some? && d.userId.Some? && d.title.Some? && d.status.Some?
    && d.checklist.Some? && d.createdAt.Some? && d.updatedAt.Some?
    && AtMost(d.id, IdMaxLength) && AtMost(d.userId, IdMaxLength)
    && AtMost(d.title, TitleMaxLength) && AtMost(d.description, DescriptionMaxLength)
    && InStatusEnum(d.status)
    && forall i :: 0 <= i < |d.checklist.value| ==> ValidItemDoc(d.checklist.value[i])
  }

  /** syncStateSchema: id, lastSync and isOnline are required. */
  predicate ValidSyncStateDoc(d: SyncStateDoc)
  {
    d.id.Some? && d.lastSync.Some? && d.isOnline.Some? && AtMost(d.id, IdMaxLength)
  }

  // ---- the same rules on typed records, where every required property is present

  predicate ValidUser(u: User)
  {
    |u.id| <= IdMaxLength && |u.name| <= NameMaxLength
  }

  predicate ValidItem(i: ChecklistItem)
  {
    |i.id| <= IdMaxLength && |i.text| <= ItemTextMaxLength && IsDeclaredStatus(i.status)
  }

  predicate ValidTask(t: Task)
  {
    && |t.id| <= IdMaxLength && |t.userId| <= IdMaxLength && |t.title| <= TitleMaxLength
    && (t.description.Some? ==> |t.description.value| <= DescriptionMaxLength)
    && IsDeclaredStatus(t.status)
    && forall i :: 0 <= i < |t.checklist| ==> ValidItem(t.checklist[i])
  }

  predicate ValidSyncState(s: SyncState)
  {
    |s.id| <= IdMaxLength
  }

  /** The schema's status enum holds exactly the declared statuses. */
  lemma StatusEnumIsDeclared(s: Status)
    ensures StatusName(s) in StatusEnum <==> IsDeclaredStatus(s)
  {
    match s
    case FinalCheckAwaiting =>
      assert StatusName(s) != StatusEnum[0] && StatusName(s) != StatusEnum[1];
      assert StatusName(s) != StatusEnum[2] && StatusName(s) != StatusEnum[3];
    case _ =>
  }

  // ---- documents <-> records

  function ParseStatus(s: string): (r: Option<Status>)
    ensures r.Some? ==> StatusName(r.value) == s
  {
    if s == "not-started" then Some(NotStarted)
    else if s == "in-progress" then Some(InProgress)
    else if s == "blocked" then Some(Blocked)
    else if s == "final-check-awaiting" then Some(FinalCheckAwaiting)
    else if s == "completed" then Some(Completed)
    else None
  }

  lemma ParseStatusName(s: Status)
    ensures ParseStatus(StatusName(s)) == Some(s)
  {
    match s
    case NotStarted =>
    case InProgress =>
      assert StatusName(s) != "not-started";
    case Blocked =>
      assert StatusName(s) != "not-started" && StatusName(s) != "in-progress";
    case FinalCheckAwaiting =>
      assert StatusName(s) != "not-started" && StatusName(s) != "in-progress";
      assert StatusName(s) != "blocked";
    case Completed =>
      assert StatusName(s) != "not-started" && StatusName(s) != "in-progress";
      assert StatusName(s) != "blocked" && StatusName(s) != "final-check-awaiting";
  }

  function EncodeUser(u: User): UserDoc
  {
    UserDoc(Some(u.id), Some(u.name), Some(u.createdAt))
  }

  function DecodeUser(d: UserDoc): Option<User>
  {
    if d.id.Some? && d.name.Some? && d.createdAt.Some?
    then Some(User(d.id.value, d.name.value, d.createdAt.value))
    else None
  }

  function EncodeItem(i: ChecklistItem): ItemDoc
  {
    ItemDoc(Some(i.id), Some(i.text), Some(StatusName(i.status)), Some(i.createdAt))
  }

  function DecodeItem(d: ItemDoc): Option<ChecklistItem>
  {
    if d.id.Some? && d.text.Some? && d.status.Some? && d.createdAt.Some?
       && ParseStatus(d.status.value).Some?
    then Some(ChecklistItem(d.id.value, d.text.value, ParseStatus(d.status.value).value, d.createdAt.value))
    else None
  }

  function EncodeItems(items: seq<ChecklistItem>): (ds: seq<ItemDoc>)
    ensures |ds| == |items|
  {
    seq(|items|, i requires 0 <= i < |items| => EncodeItem(items[i]))
  }

  function DecodeItems(ds: seq<ItemDoc>): Option<seq<ChecklistItem>>
  {
    if ds == [] then Some([])
    else
      match (DecodeItem(ds[0]), DecodeItems(ds[1..]))
      case (Some(i), Some(rest)) => Some([i] + rest)
      case _ => None
  }

  function EncodeTask(t: Task): TaskDoc
  {
    TaskDoc(Some(t.id), Some(t.userId), Some(t.title), t.description, Some(StatusName(t.status)),
            t.position, Some(EncodeItems(t.checklist)), Some(t.createdAt), Some(t.updatedAt))
  }

  function DecodeTask(d: TaskDoc): Option<Task>
  {
    if && d.id.Some? && d.userId.Some? && d.title.Some? && d.status.Some?
       && d.checklist.Some? && d.createdAt.Some? && d.updatedAt.Some?
       && ParseStatus(d.status.value).Some? && DecodeItems(d.checklist.value).Some?
    then Some(Task(d.id.value, d.userId.value, d.title.value, d.description,
                   ParseStatus(d.status.value).value, d.position,
                   DecodeItems(d.checklist.value).value, d.createdAt.value, d.updatedAt.value))
    else None
  }

  function EncodeSyncState(s: SyncState): SyncStateDoc
  {
    SyncStateDoc(Some(s.id), Some(s.lastSync), Some(s.isOnline))
  }

  function DecodeSyncState(d: SyncStateDoc): Option<SyncState>
  {
    if d.id.Some? && d.lastSync.Some? && d.isOnline.Some?
    then Some(SyncState(d.id.value, d.lastSync.value, d.isOnline.value))
    else None
  }

  // ---- round trips and agreement of the two readings of validity

  lemma {:induction false} ItemsRoundTrip(items: seq<ChecklistItem>)
    ensures DecodeItems(EncodeItems(items)) == Some(items)
  {
    if items != [] {
      ParseStatusName(items[0].status);
      assert EncodeItems(items)[1..] == EncodeItems(items[1..]);
      ItemsRoundTrip(items[1..]);
      assert [items[0]] + items[1..] == items;
    }
  }

  /** A task read back from the document it is stored as is the same task. */
  lemma TaskRoundTrip(t: Task)
    ensures DecodeTask(EncodeTask(t)) == Some(t)
  {
    ParseStatusName(t.status);
    ItemsRoundTrip(t.checklist);
  }

  lemma UserRoundTrip(u: User)
    ensures DecodeUser(EncodeUser(u)) == Some(u)
    ensures ValidUserDoc(EncodeUser(u)) <==> ValidUser(u)
  {
  }

  lemma SyncStateRoundTrip(s: SyncState)
    ensures DecodeSyncState(EncodeSyncState(s)) == Some(s)
    ensures ValidSyncStateDoc(EncodeSyncState(s)) <==> ValidSyncState(s)
  {
  }

  /** A document that satisfies the schema is the encoding of exactly one record. */
  lemma {:induction false} ValidItemsDecode(ds: seq<ItemDoc>)
    requires forall i :: 0 <= i < |ds| ==> ValidItemDoc(ds[i])
    ensures DecodeItems(ds).Some? && EncodeItems(DecodeItems(ds).value) == ds
  {
    if ds != [] {
      ValidItemsDecode(ds[1..]);
      var d := ds[0];
      StatusEnumMembershipParses(d.status.value);
      ParseStatusName(ParseStatus(d.status.value).value);
      var items := DecodeItems(ds).value;
      assert items[1..] == DecodeItems(ds[1..]).value;
      assert EncodeItems(items) == [EncodeItem(items[0])] + EncodeItems(items[1..]);
      assert ds == [ds[0]] + ds[1..];
    }
  }

  lemma StatusEnumMembershipParses(s: string)
    requires s in StatusEnum
    ensures ParseStatus(s).Some? && IsDeclaredStatus(ParseStatus(s).value)
  {
  }

  lemma ValidTaskDocDecodes(d: TaskDoc)
    requires ValidTaskDoc(d)
    ensures DecodeTask(d).Some? && EncodeTask(DecodeTask(d).value) == d
    ensures ValidTask(DecodeTask(d).value)
  {
    ValidItemsDecode(d.checklist.value);
    StatusEnumMembershipParses(d.status.value);
    ParseStatusName(ParseStatus(d.status.value).value);
    var t := DecodeTask(d).value;
    forall i | 0 <= i < |t.checklist| ensures ValidItem(t.checklist[i]) {
      ItemDocValidity(t.checklist[i]);
      assert EncodeItems(t.checklist)[i] == d.checklist.value[i];
    }
  }

  lemma ItemDocValidity(i: ChecklistItem)
    ensures ValidItemDoc(EncodeItem(i)) <==> ValidItem(i)
  {
    StatusEnumIsDeclared(i.status);
  }

  /** The document of a task satisfies the schema exactly when the task is valid. */
  lemma TaskDocValidity(t: Task)
    ensures ValidTaskDoc(EncodeTask(t)) <==> ValidTask(t)
  {
    StatusEnumIsDeclared(t.status);
    var ds := EncodeItems(t.checklist);
    forall i | 0 <= i < |t.checklist| ensures ValidItemDoc(ds[i]) <==> ValidItem(t.checklist[i]) {
      ItemDocValidity(t.checklist[i]);
    }
  }

  /** A task whose status is final-check-awaiting is stored as a document the
      schema rejects. */
  lemma FinalCheckAwaitingRejected(t: Task)
    requires t.status == FinalCheckAwaiting
    ensures !ValidTask(t) && !ValidTaskDoc(EncodeTask(t))
  {
    TaskDocValidity(t);
  }
}
