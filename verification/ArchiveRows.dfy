/** Project rows and their archive snapshots: every column is printed, and a restore parses back
    every column except the project type and the workflow template version. */
module ArchiveRows {
  import opened Wrappers
  import opened Calendar
  import opened Snapshots

  datatype Status = PendingReview | Reviewing | Rejected | NotStarted | InProgress | Completed | Closed | Terminated

  datatype MainProject = MainProject(
    id: Uuid, projectNo: string, name: string, deptId: Uuid, status: Status, totalBudget: int,
    expectedFinishDate: Date, spentAmount: int, remark: Option<string>, creatorId: Option<Uuid>,
    closedAt: Option<DateTime>, createdAt: DateTime, updatedAt: DateTime, projectTypeId: Option<Uuid>)

  datatype SubProject = SubProject(
    id: Uuid, projectNo: string, name: string, mainId: Uuid, deptId: Uuid, budget: int,
    managerId: Uuid, creatorId: Option<Uuid>, status: Status, planEndDate: Option<Date>,
    actualEndDate: Option<Date>, spentAmount: int, remark: Option<string>, closedAt: Option<DateTime>,
    createdAt: DateTime, updatedAt: DateTime, workflowTemplateVersionId: Option<Uuid>)

  datatype Column =
    | Id | ProjectNo | Name | MainProjectId | DeptId | StatusColumn | TotalBudget | Budget | ManagerId
    | ExpectedFinishDate | PlanEndDate | ActualEndDate | SpentAmount | Remark | CreatorId | ClosedAt
    | CreatedAt | UpdatedAt | ProjectTypeId | WorkflowTemplateVersionId

  datatype Json = Null | JsonText(text: string)

  type Snapshot = map<Column, Json>

  // ---------------------------------------------------------------- printing

  function StatusText(s: Status): string {
    match s
    case PendingReview => "pending_review"
    case Reviewing => "reviewing"
    case Rejected => "rejected"
    case NotStarted => "not_started"
    case InProgress => "in_progress"
    case Completed => "completed"
    case Closed => "closed"
    case Terminated => "terminated"
  }

  function JsonOf(text: Option<string>): Json {
    match text
    case None => Null
    case Some(t) => JsonText(t)
  }

  function UuidJson(u: Option<Uuid>): Json {
    match u
    case None => Null
    case Some(v) => JsonText(UuidText(v))
  }

  function DateJson(d: Option<Date>): Json {
    match d
    case None => Null
    case Some(v) => JsonText(DateText(v))
  }

  function DateTimeJson(t: Option<DateTime>): Json {
    match t
    case None => Null
    case Some(v) => JsonText(DateTimeText(v))
  }

  /** `serialize_model` on a main project. */
  function SerializeMain(p: MainProject): Snapshot {
    map[Id := JsonText(UuidText(p.id)), ProjectNo := JsonText(p.projectNo), Name := JsonText(p.name),
        DeptId := JsonText(UuidText(p.deptId)), StatusColumn := JsonText(StatusText(p.status)),
        TotalBudget := JsonText(AmountText(p.totalBudget)), ExpectedFinishDate := JsonText(DateText(p.expectedFinishDate)),
        SpentAmount := JsonText(AmountText(p.spentAmount)), Remark := JsonOf(p.remark), CreatorId := UuidJson(p.creatorId),
        ClosedAt := DateTimeJson(p.closedAt), CreatedAt := JsonText(DateTimeText(p.createdAt)),
        UpdatedAt := JsonText(DateTimeText(p.updatedAt)), ProjectTypeId := UuidJson(p.projectTypeId)]
  }

  /** `serialize_model` on a sub-project. */
  function SerializeSub(p: SubProject): Snapshot {
    map[Id := JsonText(UuidText(p.id)), ProjectNo := JsonText(p.projectNo), Name := JsonText(p.name),
        MainProjectId := JsonText(UuidText(p.mainId)), DeptId := JsonText(UuidText(p.deptId)),
        Budget := JsonText(AmountText(p.budget)), ManagerId := JsonText(UuidText(p.managerId)),
        CreatorId := UuidJson(p.creatorId), StatusColumn := JsonText(StatusText(p.status)),
        PlanEndDate := DateJson(p.planEndDate), ActualEndDate := DateJson(p.actualEndDate),
        SpentAmount := JsonText(AmountText(p.spentAmount)), Remark := JsonOf(p.remark), ClosedAt := DateTimeJson(p.closedAt),
        CreatedAt := JsonText(DateTimeText(p.createdAt)), UpdatedAt := JsonText(DateTimeText(p.updatedAt)),
        WorkflowTemplateVersionId := UuidJson(p.workflowTemplateVersionId)]
  }

  // ---------------------------------------------------------------- parsing

  /** `MainProjectStatus(text)`; a main project is never terminated. */
  function ParseMainStatus(text: string): Option<Status> {
    if text == StatusText(Terminated) then None else ParseSubStatus(text)
  }

  function ParseSubStatus(text: string): Option<Status> {
    if text == "pending_review" then Some(PendingReview)
    else if text == "reviewing" then Some(Reviewing)
    else if text == "rejected" then Some(Rejected)
    else if text == "not_started" then Some(NotStarted)
    else if text == "in_progress" then Some(InProgress)
    else if text == "completed" then Some(Completed)
    else if text == "closed" then Some(Closed)
    else if text == "terminated" then Some(Terminated)
    else None
  }

  /** `_snapshot_str`: a missing column raises, a null reads as "None". */
  function ReadText(s: Snapshot, c: Column): Option<string> {
    if c !in s then None
    else match s[c]
      case Null => Some("None")
      case JsonText(t) => Some(t)
  }

  /** `_snapshot_optional_str`: a missing column reads as null. */
  function ReadOptional(s: Snapshot, c: Column): Option<string> {
    if c !in s || s[c].Null? then None else Some(s[c].text)
  }

  function ReadUuid(s: Snapshot, c: Column): Option<Uuid> {
    var t :- ReadText(s, c);
    ParseUuid(t)
  }

  function ReadAmount(s: Snapshot, c: Column): Option<int> {
    var t :- ReadText(s, c);
    ParseAmount(t)
  }

  function ReadDate(s: Snapshot, c: Column): Option<Date> {
    var t :- ReadText(s, c);
    ParseDate(t)
  }

  function ReadDateTime(s: Snapshot, c: Column): Option<DateTime> {
    var t :- ReadText(s, c);
    ParseDateTime(t)
  }

  function ReadOptionalUuid(s: Snapshot, c: Column): Option<Option<Uuid>> {
    match ReadOptional(s, c)
    case None => Some(None)
    case Some(t) => var v :- ParseUuid(t); Some(Some(v))
  }

  function ReadOptionalDate(s: Snapshot, c: Column): Option<Option<Date>> {
    match ReadOptional(s, c)
    case None => Some(None)
    case Some(t) => var v :- ParseDate(t); Some(Some(v))
  }

  function ReadOptionalDateTime(s: Snapshot, c: Column): Option<Option<DateTime>> {
    match ReadOptional(s, c)
    case None => Some(None)
    case Some(t) => var v :- ParseDateTime(t); Some(Some(v))
  }

  function MainFromSnapshot(s: Snapshot): Option<MainProject> {
    var id :- ReadUuid(s, Id);
    var projectNo :- ReadText(s, ProjectNo);
    var name :- ReadText(s, Name);
    var deptId :- ReadUuid(s, DeptId);
    var statusText :- ReadText(s, StatusColumn);
    var status :- ParseMainStatus(statusText);
    var totalBudget :- ReadAmount(s, TotalBudget);
    var expectedFinishDate :- ReadDate(s, ExpectedFinishDate);
    var spentAmount :- ReadAmount(s, SpentAmount);
    var creatorId :- ReadOptionalUuid(s, CreatorId);
    var closedAt :- ReadOptionalDateTime(s, ClosedAt);
    var createdAt :- ReadDateTime(s, CreatedAt);
    var updatedAt :- ReadDateTime(s, UpdatedAt);
    Some(MainProject(id, projectNo, name, deptId, status, totalBudget, expectedFinishDate, spentAmount,
                     ReadOptional(s, Remark), creatorId, closedAt, createdAt, updatedAt, None))
  }

  function SubFromSnapshot(s: Snapshot): Option<SubProject> {
    var id :- ReadUuid(s, Id);
    var projectNo :- ReadText(s, ProjectNo);
    var name :- ReadText(s, Name);
    var mainId :- ReadUuid(s, MainProjectId);
    var deptId :- ReadUuid(s, DeptId);
    var budget :- ReadAmount(s, Budget);
    var managerId :- ReadUuid(s, ManagerId);
    var creatorId :- ReadOptionalUuid(s, CreatorId);
    var statusText :- ReadText(s, StatusColumn);
    var status :- ParseSubStatus(statusText);
    var planEndDate :- ReadOptionalDate(s, PlanEndDate);
    var actualEndDate :- ReadOptionalDate(s, ActualEndDate);
    var spentAmount :- ReadAmount(s, SpentAmount);
    var closedAt :- ReadOptionalDateTime(s, ClosedAt);
    var createdAt :- ReadDateTime(s, CreatedAt);
    var updatedAt :- ReadDateTime(s, UpdatedAt);
    Some(SubProject(id, projectNo, name, mainId, deptId, budget, managerId, creatorId, status, planEndDate, actualEndDate,
                    spentAmount, ReadOptional(s, Remark), closedAt, createdAt, updatedAt, None))
  }

  // ---------------------------------------------------------------- round trips

  predicate StorableDate(d: Date) {
    ValidDate(d) && d.year <= 9999
  }

  /** Values that the columns can hold. */
  predicate StorableMain(p: MainProject) {
    && p.status != Terminated && StorableDate(p.expectedFinishDate)
    && ValidDateTime(p.createdAt) && ValidDateTime(p.updatedAt) && (p.closedAt.Some? ==> ValidDateTime(p.closedAt.value))
  }

  predicate StorableSub(p: SubProject) {
    && (p.planEndDate.Some? ==> StorableDate(p.planEndDate.value))
    && (p.actualEndDate.Some? ==> StorableDate(p.actualEndDate.value))
    && ValidDateTime(p.createdAt) && ValidDateTime(p.updatedAt) && (p.closedAt.Some? ==> ValidDateTime(p.closedAt.value))
  }

  /** A row without the one column that a restore does not read. */
  function RestoredMain(p: MainProject): MainProject {
    p.(projectTypeId := None)
  }

  function RestoredSub(p: SubProject): SubProject {
    p.(workflowTemplateVersionId := None)
  }

  lemma UuidJsonRoundTrip(s: Snapshot, c: Column, u: Option<Uuid>)
    requires c in s && s[c] == UuidJson(u)
    ensures ReadOptionalUuid(s, c) == Some(u)
    ensures u.Some? ==> ReadUuid(s, c) == u
  {
    hide UuidText, ParseUuid;
    if u.Some? { UuidRoundTrip(u.value); }
  }

  lemma DateJsonRoundTrip(s: Snapshot, c: Column, d: Option<Date>)
    requires c in s && s[c] == DateJson(d) && (d.Some? ==> StorableDate(d.value))
    ensures ReadOptionalDate(s, c) == Some(d)
    ensures d.Some? ==> ReadDate(s, c) == d
  {
    hide DateText, ParseDate;
    if d.Some? { DateRoundTrip(d.value); }
  }

  lemma DateTimeJsonRoundTrip(s: Snapshot, c: Column, t: Option<DateTime>)
    requires c in s && s[c] == DateTimeJson(t) && (t.Some? ==> ValidDateTime(t.value))
    ensures ReadOptionalDateTime(s, c) == Some(t)
    ensures t.Some? ==> ReadDateTime(s, c) == t
  {
    hide DateTimeText, ParseDateTime, ValidDateTime;
    if t.Some? { DateTimeRoundTrip(t.value); }
  }

  lemma AmountJsonRoundTrip(s: Snapshot, c: Column, cents: int)
    requires c in s && s[c] == JsonText(AmountText(cents))
    ensures ReadAmount(s, c) == Some(cents)
  {
    hide AmountText, ParseAmount;
    AmountRoundTrip(cents);
  }

  lemma StatusRoundTrip(status: Status)
    ensures ParseSubStatus(StatusText(status)) == Some(status)
    ensures status != Terminated ==> ParseMainStatus(StatusText(status)) == Some(status)
  {
  }

  lemma MainTextsRead(p: MainProject, s: Snapshot)
    requires s == SerializeMain(p)
    ensures ReadText(s, ProjectNo) == Some(p.projectNo) && ReadText(s, Name) == Some(p.name) && ReadOptional(s, Remark) == p.remark
  {
    hide UuidText, AmountText, DateText, DateTimeText, StatusText;
  }

  lemma MainColumnsRead(p: MainProject, s: Snapshot)
    requires StorableMain(p) && s == SerializeMain(p)
    ensures ReadUuid(s, Id) == Some(p.id) && ReadUuid(s, DeptId) == Some(p.deptId) && ReadOptionalUuid(s, CreatorId) == Some(p.creatorId)
    ensures ReadText(s, StatusColumn) == Some(StatusText(p.status)) && ParseMainStatus(StatusText(p.status)) == Some(p.status)
    ensures ReadAmount(s, TotalBudget) == Some(p.totalBudget) && ReadAmount(s, SpentAmount) == Some(p.spentAmount)
    ensures ReadDate(s, ExpectedFinishDate) == Some(p.expectedFinishDate)
    ensures ReadOptionalDateTime(s, ClosedAt) == Some(p.closedAt)
    ensures ReadDateTime(s, CreatedAt) == Some(p.createdAt) && ReadDateTime(s, UpdatedAt) == Some(p.updatedAt)
  {
    hide UuidText, ReadUuid, ReadOptionalUuid, ReadDate, ReadDateTime, ReadOptionalDateTime, ReadAmount, DateText,
      DateTimeText, AmountText, StatusText, ParseMainStatus, ValidDateTime, StorableDate;
    UuidJsonRoundTrip(s, Id, Some(p.id));
    UuidJsonRoundTrip(s, DeptId, Some(p.deptId));
    UuidJsonRoundTrip(s, CreatorId, p.creatorId);
    StatusRoundTrip(p.status);
    AmountJsonRoundTrip(s, TotalBudget, p.totalBudget);
    AmountJsonRoundTrip(s, SpentAmount, p.spentAmount);
    DateJsonRoundTrip(s, ExpectedFinishDate, Some(p.expectedFinishDate));
    DateTimeJsonRoundTrip(s, ClosedAt, p.closedAt);
    DateTimeJsonRoundTrip(s, CreatedAt, Some(p.createdAt));
    DateTimeJsonRoundTrip(s, UpdatedAt, Some(p.updatedAt));
  }

  /** Restoring a main project's snapshot gives the archived row, except for its project type. */
  lemma MainRoundTrip(p: MainProject)
    requires StorableMain(p)
    ensures MainFromSnapshot(SerializeMain(p)) == Some(RestoredMain(p)) == Some(p.(projectTypeId := None))
  {
    hide ReadUuid, ReadOptionalUuid, ReadDate, ReadDateTime, ReadOptionalDateTime, ReadAmount, StatusText, ParseMainStatus, StorableMain,
      SerializeMain, ReadText, ReadOptional;
    MainTextsRead(p, SerializeMain(p));
    MainColumnsRead(p, SerializeMain(p));
  }

  lemma SubTextsRead(p: SubProject, s: Snapshot)
    requires s == SerializeSub(p)
    ensures ReadText(s, ProjectNo) == Some(p.projectNo) && ReadText(s, Name) == Some(p.name) && ReadOptional(s, Remark) == p.remark
  {
    hide UuidText, AmountText, DateText, DateTimeText, StatusText;
  }

  lemma SubColumnsRead(p: SubProject, s: Snapshot)
    requires StorableSub(p) && s == SerializeSub(p)
    ensures ReadUuid(s, Id) == Some(p.id) && ReadUuid(s, MainProjectId) == Some(p.mainId) && ReadUuid(s, DeptId) == Some(p.deptId)
    ensures ReadUuid(s, ManagerId) == Some(p.managerId) && ReadOptionalUuid(s, CreatorId) == Some(p.creatorId)
    ensures ReadText(s, StatusColumn) == Some(StatusText(p.status)) && ParseSubStatus(StatusText(p.status)) == Some(p.status)
    ensures ReadAmount(s, Budget) == Some(p.budget) && ReadAmount(s, SpentAmount) == Some(p.spentAmount)
  {
    hide UuidText, ReadUuid, ReadOptionalUuid, ReadDate, ReadOptionalDate, ReadDateTime, ReadOptionalDateTime, ReadAmount,
      DateText, DateTimeText, AmountText, StatusText, ParseSubStatus, ValidDateTime, StorableDate;
    UuidJsonRoundTrip(s, Id, Some(p.id));
    UuidJsonRoundTrip(s, MainProjectId, Some(p.mainId));
    UuidJsonRoundTrip(s, DeptId, Some(p.deptId));
    UuidJsonRoundTrip(s, ManagerId, Some(p.managerId));
    UuidJsonRoundTrip(s, CreatorId, p.creatorId);
    StatusRoundTrip(p.status);
    AmountJsonRoundTrip(s, Budget, p.budget);
    AmountJsonRoundTrip(s, SpentAmount, p.spentAmount);
  }

  lemma SubTimesRead(p: SubProject, s: Snapshot)
    requires StorableSub(p) && s == SerializeSub(p)
    ensures ReadOptionalDate(s, PlanEndDate) == Some(p.planEndDate) && ReadOptionalDate(s, ActualEndDate) == Some(p.actualEndDate)
    ensures ReadOptionalDateTime(s, ClosedAt) == Some(p.closedAt)
    ensures ReadDateTime(s, CreatedAt) == Some(p.createdAt) && ReadDateTime(s, UpdatedAt) == Some(p.updatedAt)
  {
    hide UuidText, ReadUuid, ReadOptionalUuid, ReadDate, ReadOptionalDate, ReadDateTime, ReadOptionalDateTime, ReadAmount,
      DateText, DateTimeText, AmountText, StatusText, ParseSubStatus, ValidDateTime, StorableDate;
    DateJsonRoundTrip(s, PlanEndDate, p.planEndDate);
    DateJsonRoundTrip(s, ActualEndDate, p.actualEndDate);
    DateTimeJsonRoundTrip(s, ClosedAt, p.closedAt);
    DateTimeJsonRoundTrip(s, CreatedAt, Some(p.createdAt));
    DateTimeJsonRoundTrip(s, UpdatedAt, Some(p.updatedAt));
  }

  /** Restoring a sub-project's snapshot gives the archived row, except for its workflow version. */
  lemma SubRoundTrip(p: SubProject)
    requires StorableSub(p)
    ensures SubFromSnapshot(SerializeSub(p)) == Some(RestoredSub(p)) == Some(p.(workflowTemplateVersionId := None))
  {
    hide ReadUuid, ReadOptionalUuid, ReadDate, ReadOptionalDate, ReadDateTime, ReadOptionalDateTime, ReadAmount, StatusText,
      ParseSubStatus, StorableSub,
      SerializeSub, ReadText, ReadOptional;
    SubTextsRead(p, SerializeSub(p));
    SubColumnsRead(p, SerializeSub(p));
    SubTimesRead(p, SerializeSub(p));
  }
}
